/**
 * The per-job coefficient buckets of hevcdec.c. A job owns four buckets of
 * int16 coefficients. Buckets 0 to 2 hand out space upward from their base,
 * bucket 3 hands it out downward from its base, and bucket 3's base is the
 * end of bucket 2's region, so those two share one region of coeff_count
 * elements and grow towards each other.
 *
 * Addresses are byte addresses held as unbounded integers; an element is two
 * bytes.
 */
module Coeffs {

  const Buckets := 4
  /** The downward-growing bucket. */
  const Down := 3
  const ElemBytes := 2

  /** A half-open byte range [lo, hi). */
  datatype Span = Span(lo: int, hi: int)

  predicate Disjoint(a: Span, b: Span)
  {
    a.hi <= b.lo || b.hi <= a.lo
  }

  predicate Inside(a: Span, b: Span)
  {
    b.lo <= a.lo && a.hi <= b.hi
  }

  /** The part of bucket `b` handed out once its count is `n`. */
  function Used(b: nat, base: int, n: nat): (r: Span)
  {
    if b != Down then Span(base, base + ElemBytes * n)
    else Span(base - ElemBytes * n, base)
  }

  /** The block handed out by an allocation of k elements when the count is n. */
  function Block(b: nat, base: int, n: nat, k: nat): Span
  {
    if b != Down then Span(base + ElemBytes * n, base + ElemBytes * (n + k))
    else Span(base - ElemBytes * (n + k), base - ElemBytes * n)
  }

  /**
   * A block of k elements is k elements long, lies outside everything handed
   * out before it, and together with that makes up what is handed out after.
   */
  lemma BlockExtendsUsed(b: nat, base: int, n: nat, k: nat)
    ensures Block(b, base, n, k).hi - Block(b, base, n, k).lo == ElemBytes * k
    ensures Disjoint(Block(b, base, n, k), Used(b, base, n))
    ensures Inside(Block(b, base, n, k), Used(b, base, n + k))
    ensures Inside(Used(b, base, n), Used(b, base, n + k))
    ensures b != Down ==> Used(b, base, n).hi == Block(b, base, n, k).lo
    ensures b == Down ==> Block(b, base, n, k).hi == Used(b, base, n).lo
  {
  }

  /**
   * Two allocations from one bucket with no reset between them never overlap:
   * the later one starts where the count stood after the earlier one, or further.
   */
  lemma SuccessiveBlocksDisjoint(b: nat, base: int, n1: nat, k1: nat, n2: nat, k2: nat)
    requires n1 + k1 <= n2
    ensures Disjoint(Block(b, base, n1, k1), Block(b, base, n2, k2))
  {
    BlockExtendsUsed(b, base, n1, k1);
    BlockExtendsUsed(b, base, n2, k2);
  }

  /**
   * Buckets 2 and 3 share the region of coeff_count elements that starts at
   * bucket 2's base; what they have handed out stays apart exactly as long
   * as their counts together fit in that region.
   */
  lemma SharedRegionDisjoint(base2: int, coeffCount: nat, n2: nat, n3: nat)
    ensures coeffCount > 0 && n2 > 0 && n3 > 0 ==>
      (Disjoint(Used(2, base2, n2), Used(Down, base2 + ElemBytes * coeffCount, n3)) <==> n2 + n3 <= coeffCount)
    ensures n2 + n3 <= coeffCount ==>
      Inside(Used(2, base2, n2), Span(base2, base2 + ElemBytes * coeffCount)) &&
      Inside(Used(Down, base2 + ElemBytes * coeffCount, n3), Span(base2, base2 + ElemBytes * coeffCount))
  {
  }

  /** `(p + 63) & ~63` for a non-negative address: the next 64-byte boundary. */
  function Align64(p: nat): (r: nat)
    ensures r % 64 == 0 && p <= r < p + 64
  {
    (p + 63) - (p + 63) % 64
  }

  /** The coefficient environment of one job. */
  class CoeffEnv {
    const coeffCount: nat
    /** s[i].buf for each bucket; bucket 1 is never given a buffer (NULL). */
    const base: array<int>
    /** s[i].n, in elements. */
    const n: array<nat>
    /** Every block handed out since the last reset, with its bucket. */
    ghost var live: seq<(nat, Span)>

    ghost predicate Valid()
      reads this, n, base
    {
      n.Length == Buckets && base.Length == Buckets &&
      (forall i :: 0 <= i < |live| ==>
        live[i].0 < Buckets && Inside(live[i].1, Used(live[i].0, base[live[i].0], n[live[i].0]))) &&
      (forall i, j :: 0 <= i < j < |live| && live[i].0 == live[j].0 ==> Disjoint(live[i].1, live[j].1))
    }

    /**
     * The buffers worker_pic_alloc_all sets up once both allocations succeed:
     * bucket 2 at the start of the GPU block, bucket 3 coeff_count elements
     * further on, bucket 0 at the malloc'd block rounded up to 64 bytes.
     */
    constructor (coeffCount: nat, gpuArm: int, mptr: nat)
      ensures Valid() && this.coeffCount == coeffCount && live == []
      ensures base[..] == [Align64(mptr), 0, gpuArm, gpuArm + ElemBytes * coeffCount]
      ensures n[..] == [0, 0, 0, 0]
      ensures fresh(base) && fresh(n)
    {
      this.coeffCount := coeffCount;
      base := new int[4] [Align64(mptr), 0, gpuArm, gpuArm + ElemBytes * coeffCount];
      n := new nat[4] [0, 0, 0, 0];
      live := [];
    }

    /**
     * rpi_alloc_coeff_buf: hands out k elements from bucket b and bumps that
     * bucket's count, and no other.
     */
    method Alloc(b: nat, k: nat) returns (addr: int)
      requires Valid() && b < Buckets
      modifies this`live, n
      ensures Valid()
      ensures addr == if b != Down then base[b] + ElemBytes * old(n[b]) else base[b] - ElemBytes * (old(n[b]) + k)
      ensures Block(b, base[b], old(n[b]), k).lo == addr
      ensures n[b] == old(n[b]) + k
      ensures forall i :: 0 <= i < Buckets && i != b ==> n[i] == old(n[i])
      ensures live == old(live) + [(b, Block(b, base[b], old(n[b]), k))]
    {
      var blk := Block(b, base[b], n[b], k);
      BlockExtendsUsed(b, base[b], n[b], k);
      addr := if b != Down then base[b] + ElemBytes * n[b] else base[b] - ElemBytes * (n[b] + k);
      ghost var oldN := n[b];
      n[b] := n[b] + k;
      live := live + [(b, blk)];
      forall i | 0 <= i < |live| - 1 && live[i].0 == b
        ensures Disjoint(live[i].1, blk)
      {
        BlockExtendsUsed(b, base[b], oldN, k);
      }
    }

    /** worker_pic_reset: every bucket's count back to zero. */
    method PicReset()
      requires Valid()
      modifies this`live, n
      ensures Valid() && live == []
      ensures n[..] == [0, 0, 0, 0]
    {
      live := [];
      var i := 0;
      while i != Buckets
        invariant 0 <= i <= Buckets
        invariant forall j :: 0 <= j < i ==> n[j] == 0
        modifies n
      {
        n[i] := 0;
        i := i + 1;
      }
    }
  }
}
