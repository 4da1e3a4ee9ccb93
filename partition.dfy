/**
 * The block partition computed by `parallel_for`: a range of `len` indices
 * is cut into `n` contiguous blocks, block `t` being `[t*len/n, (t+1)*len/n)`
 * except that the last block always ends at `len`. Offsets are counted from
 * 0, not from the start of the caller's range. All arithmetic is on
 * unbounded naturals.
 */
module Partition {

  /** One block: the half-open range of offsets `[lo, hi)`. */
  datatype Block = Block(lo: nat, hi: nat)

  /**
   * Offset at which block `t` starts (`block_start`): the share of `len`
   * owed to the first `t` workers, rounded down, never past `len`.
   */
  function BlockStart(t: nat, len: nat, n: nat): (r: nat)
    requires n > 0
    ensures r * n <= t * len < r * n + n
    ensures t <= n ==> r <= len
  {
    assert t <= n ==> t * len / n <= len by {
      if t <= n { DivBelowWhole(t, len, n); }
    }
    t * len / n
  }

  /**
   * Offset at which block `t` ends (`block_end`): the start of block `t+1`,
   * except that the last block absorbs the remainder and ends at `len`.
   */
  function BlockEnd(t: nat, len: nat, n: nat): (r: nat)
    requires n > 0
    ensures t + 1 == n ==> r == len
    ensures t + 1 < n ==> r == BlockStart(t + 1, len, n)
    ensures t < n ==> r <= len
  {
    if t + 1 == n then len else BlockStart(t + 1, len, n)
  }

  /** The `n` blocks, in the order `parallel_for` submits them. */
  function Blocks(len: nat, n: nat): (bs: seq<Block>)
    ensures |bs| == n
  {
    seq(n, t requires 0 <= t < n => Block(BlockStart(t, len, n), BlockEnd(t, len, n)))
  }

  // ---------------------------------------------------------------------
  // Arithmetic helpers

  lemma MulMonotone(a: nat, b: nat, c: nat)
    requires a <= b
    ensures a * c <= b * c
  {
    var d := b - a;
    assert b * c == a * c + d * c;
  }

  lemma DivMonotone(a: nat, b: nat, n: nat)
    requires n > 0 && a <= b
    ensures a / n <= b / n
  {
    var qa, qb := a / n, b / n;
    assert qa * n <= a;
    assert b < qb * n + n;
    if qb + 1 <= qa {
      MulMonotone(qb + 1, qa, n);
    }
  }

  lemma DivBelowWhole(t: nat, len: nat, n: nat)
    requires t <= n && n > 0
    ensures t * len / n <= len
  {
    MulMonotone(t, n, len);
    DivMonotone(t * len, n * len, n);
    assert n * len == len * n;
    assert (len * n) / n == len;
  }

  // ---------------------------------------------------------------------
  // Properties of the partition

  /** Block starts never decrease with the block index. */
  lemma {:induction false} BlockStartMonotone(s: nat, t: nat, len: nat, n: nat)
    requires n > 0 && s <= t
    ensures BlockStart(s, len, n) <= BlockStart(t, len, n)
  {
    MulMonotone(s, t, len);
    DivMonotone(s * len, t * len, n);
  }

  /** Every block lies inside `[0, len]` and is well formed: `lo <= hi`. */
  lemma {:induction false} BlockBounds(t: nat, len: nat, n: nat)
    requires t < n
    ensures BlockStart(t, len, n) <= BlockEnd(t, len, n) <= len
  {
    if t + 1 == n {
      DivBelowWhole(t, len, n);
    } else {
      BlockStartMonotone(t, t + 1, len, n);
      DivBelowWhole(t + 1, len, n);
    }
  }

  /** Consecutive blocks touch: block `t` ends where block `t+1` starts. */
  lemma {:induction false} BlocksContiguous(t: nat, len: nat, n: nat)
    requires t + 1 < n
    ensures BlockEnd(t, len, n) == BlockStart(t + 1, len, n)
  {
  }

  /** A block that comes earlier ends no later than a later block starts. */
  lemma {:induction false} BlocksOrdered(s: nat, t: nat, len: nat, n: nat)
    requires s < t < n
    ensures BlockEnd(s, len, n) <= BlockStart(t, len, n)
  {
    BlocksContiguous(s, len, n);
    BlockStartMonotone(s + 1, t, len, n);
  }

  /** Every offset below the end of block `k` lies in some block `t <= k`. */
  lemma {:induction false} CoveredUpTo(k: nat, i: nat, len: nat, n: nat)
    requires k < n && i < BlockEnd(k, len, n)
    ensures exists t: nat :: t <= k && BlockStart(t, len, n) <= i < BlockEnd(t, len, n)
    decreases k
  {
    if BlockStart(k, len, n) <= i {
      assert BlockStart(k, len, n) <= i < BlockEnd(k, len, n);
    } else {
      assert k > 0;
      BlocksContiguous(k - 1, len, n);
      CoveredUpTo(k - 1, i, len, n);
      var t: nat :| t <= k - 1 && BlockStart(t, len, n) <= i < BlockEnd(t, len, n);
      assert t <= k;
    }
  }

  /** Whether offset `i` falls in block number `t` of `bs`. */
  ghost predicate InBlock(bs: seq<Block>, t: nat, i: nat)
  {
    t < |bs| && bs[t].lo <= i < bs[t].hi
  }

  /** Whether offset `i` falls in some block of `bs`. */
  ghost predicate Covered(bs: seq<Block>, i: nat)
  {
    exists t: nat :: InBlock(bs, t, i)
  }

  lemma BlockAt(t: nat, len: nat, n: nat)
    requires t < n
    ensures Blocks(len, n)[t] == Block(BlockStart(t, len, n), BlockEnd(t, len, n))
  {
  }

  /** Every offset below `len` lies in some block. */
  lemma {:induction false} BlocksCover(len: nat, n: nat, i: nat)
    requires n > 0 && i < len
    ensures Covered(Blocks(len, n), i)
  {
    CoveredUpTo(n - 1, i, len, n);
    var t: nat :| t <= n - 1 && BlockStart(t, len, n) <= i < BlockEnd(t, len, n);
    BlockAt(t, len, n);
    assert InBlock(Blocks(len, n), t, i);
  }

  /** No offset lies in two different blocks, and none at or past `len` lies in any. */
  lemma {:induction false} BlocksDisjoint(len: nat, n: nat, i: nat, s: nat, t: nat)
    requires InBlock(Blocks(len, n), s, i) && InBlock(Blocks(len, n), t, i)
    ensures s == t && i < len
  {
    BlockAt(s, len, n);
    BlockAt(t, len, n);
    BlockBounds(s, len, n);
    if s < t {
      BlocksOrdered(s, t, len, n);
    } else if t < s {
      BlocksOrdered(t, s, len, n);
    }
  }

  /**
   * The blocks partition `[0, len)`: the first starts at 0, the last ends at
   * `len`, each is well formed, consecutive blocks touch, and every offset
   * below `len` lies in exactly one block while no other offset lies in any.
   */
  lemma {:induction false} BlocksPartitionRange(len: nat, n: nat)
    requires n > 0
    ensures Blocks(len, n)[0].lo == 0
    ensures Blocks(len, n)[n - 1].hi == len
    ensures forall t :: 0 <= t < n ==> Blocks(len, n)[t].lo <= Blocks(len, n)[t].hi
    ensures forall t :: 0 <= t < n - 1 ==> Blocks(len, n)[t].hi == Blocks(len, n)[t + 1].lo
    ensures forall i: nat :: i < len <==> Covered(Blocks(len, n), i)
    ensures forall i: nat, s: nat, t: nat ::
              InBlock(Blocks(len, n), s, i) && InBlock(Blocks(len, n), t, i) ==> s == t
  {
    var bs := Blocks(len, n);
    BlockAt(0, len, n);
    BlockAt(n - 1, len, n);
    forall t | 0 <= t < n
      ensures bs[t].lo <= bs[t].hi
    {
      BlockAt(t, len, n);
      BlockBounds(t, len, n);
    }
    forall t | 0 <= t < n - 1
      ensures bs[t].hi == bs[t + 1].lo
    {
      BlockAt(t, len, n);
      BlockAt(t + 1, len, n);
      BlocksContiguous(t, len, n);
    }
    forall i: nat
      ensures i < len <==> Covered(bs, i)
    {
      if i < len {
        BlocksCover(len, n, i);
      } else if Covered(bs, i) {
        var t: nat :| InBlock(bs, t, i);
        BlocksDisjoint(len, n, i, t, t);
      }
    }
    forall i: nat, s: nat, t: nat | InBlock(bs, s, i) && InBlock(bs, t, i)
      ensures s == t
    {
      BlocksDisjoint(len, n, i, s, t);
    }
  }

  /** 10 indices over 3 workers: the last block absorbs the remainder. */
  lemma TenOverThree()
    ensures Blocks(10, 3) == [Block(0, 3), Block(3, 6), Block(6, 10)]
  {
  }
}
