/**
 * The cache-flush list of rpi_qpu.c (rpi_cache_flush_init, _add_gm_ptr,
 * _add_gm_range, _finish): up to 128 clean or invalidate requests on GPU
 * memory, stored in 16 blocks of 8 slots because one vcsm_clean_invalid call
 * takes one whole block.
 *
 * vcsm_clean_invalid itself is foreign: the model records the blocks it is
 * given, and takes whether each call fails as an input.
 */
module CacheFlush {
  import opened Bits
  import opened Outcome

  /** CFE_ENTS_PER_A, CFE_ENT_COUNT and CFE_A_COUNT. */
  const EntsPerBlock := 8
  const EntCount := 128
  const BlockCount := 16

  /** One vcsm_user_clean_invalid_s slot; a zero slot asks for nothing. */
  datatype Entry = Entry(cmd: nat, handle: nat, addr: nat, size: nat)

  const Zero := Entry(0, 0, 0, 0)

  /** A GPU_MEM_PTR_T: the vcsm handle, the ARM address and the size in bytes. */
  datatype GpuMem = GpuMem(handle: nat, arm: nat, numbytes: nat)

  /** The number of blocks holding n requests: the least m with 8 * m >= n. */
  function Blocks(n: nat): (m: nat)
    ensures EntsPerBlock * m >= n
    ensures m > 0 ==> EntsPerBlock * (m - 1) < n
  {
    (n + EntsPerBlock - 1) / EntsPerBlock
  }

  /** rpi_cache_flush_env_t */
  class FlushEnv {
    var n: nat
    const a: array2<Entry>

    ghost predicate Valid()
      reads this
    {
      a.Length0 == BlockCount && a.Length1 == EntsPerBlock && n <= EntCount
    }

    /** The requests recorded so far, in the order they were added. */
    ghost function Entries(): (es: seq<Entry>)
      reads this, a
      requires Valid()
      ensures |es| == n
    {
      var m := n;
      seq(m, k requires 0 <= k < m reads a => a[k / EntsPerBlock, k % EntsPerBlock])
    }

    /** The block of 8 slots handed to one vcsm_clean_invalid call. */
    function Block(i: nat): (b: seq<Entry>)
      reads this, a
      requires Valid() && i < BlockCount
      ensures |b| == EntsPerBlock
    {
      seq(EntsPerBlock, j requires 0 <= j < EntsPerBlock reads a => a[i, j])
    }

    constructor ()
      ensures Valid() && n == 0 && fresh(a)
    {
      n := 0;
      a := new Entry[BlockCount, EntsPerBlock]((i, j) => Zero);
    }

    /** rpi_cache_flush_init: an empty list, or None when malloc fails. */
    static method Init(allocOk: bool) returns (r: Option<FlushEnv>)
      ensures r.Some? <==> allocOk
      ensures r.Some? ==> r.value.Valid() && r.value.Entries() == [] && fresh(r.value) && fresh(r.value.a)
    {
      if !allocOk {
        return None;
      }
      var e := new FlushEnv();
      r := Some(e);
    }

    /** Fill slot n % 8 of block n / 8 and count it. */
    method Append(e: Entry)
      requires Valid() && n < EntCount
      modifies this, a
      ensures Valid()
      ensures Entries() == old(Entries()) + [e]
      ensures forall i, j :: 0 <= i < BlockCount && 0 <= j < EntsPerBlock && EntsPerBlock * i + j != old(n) ==>
        a[i, j] == old(a[i, j])
    {
      a[n / EntsPerBlock, n % EntsPerBlock] := e;
      n := n + 1;
    }

    /**
     * rpi_cache_flush_add_gm_ptr: a request on the whole buffer, with its
     * ARM address cut to 32 bits; nothing for a NULL or empty buffer. The
     * list must have room.
     */
    method AddGmPtr(gm: Option<GpuMem>, mode: nat)
      requires Valid()
      requires gm.Some? && gm.value.numbytes != 0 ==> n < EntCount
      modifies this, a
      ensures Valid()
      ensures gm.None? || gm.value.numbytes == 0 ==> unchanged(this, a)
      ensures gm.Some? && gm.value.numbytes != 0 ==>
        Entries() == old(Entries()) + [Entry(mode, gm.value.handle, gm.value.arm % Word, gm.value.numbytes)]
    {
      if gm.None? || gm.value.numbytes == 0 {
        return;
      }
      Append(Entry(mode, gm.value.handle, gm.value.arm % Word, gm.value.numbytes));
    }

    /**
     * rpi_cache_flush_add_gm_range: a request on size bytes from offset
     * within the buffer, addressed at the 32-bit ARM address plus offset;
     * nothing for a NULL buffer or a zero size. The range must lie in the
     * buffer as the asserts check it (the 32-bit sum offset + size included)
     * and the list must have room.
     */
    method AddGmRange(gm: Option<GpuMem>, mode: nat, offset: nat, size: nat)
      requires Valid() && offset < Word && size < Word
      requires gm.Some? && size != 0 ==>
        offset <= gm.value.numbytes && size <= gm.value.numbytes &&
        (offset + size) % Word <= gm.value.numbytes && n < EntCount
      modifies this, a
      ensures Valid()
      ensures gm.None? || size == 0 ==> unchanged(this, a)
      ensures gm.Some? && size != 0 ==>
        Entries() == old(Entries()) + [Entry(mode, gm.value.handle, (gm.value.arm % Word + offset) % Word, size)]
    {
      if gm.None? || size == 0 {
        return;
      }
      Append(Entry(mode, gm.value.handle, (gm.value.arm % Word + offset) % Word, size));
    }

    /** The memset in rpi_cache_flush_finish: zero the slots after the last request of a partly filled block. */
    method ClearTail()
      requires Valid()
      modifies a
      ensures Entries() == old(Entries())
      ensures forall j :: n % EntsPerBlock != 0 && n % EntsPerBlock <= j < EntsPerBlock ==> a[n / EntsPerBlock, j] == Zero
    {
      var nr := n % EntsPerBlock;
      if nr != 0 {
        var j := nr;
        while j < EntsPerBlock
          invariant nr <= j <= EntsPerBlock
          invariant forall i, k :: 0 <= i < BlockCount && 0 <= k < EntsPerBlock ==>
            a[i, k] == if i == n / EntsPerBlock && nr <= k < j then Zero else old(a[i, k])
          modifies a
        {
          a[n / EntsPerBlock, j] := Zero;
          j := j + 1;
        }
      }
      forall k | 0 <= k < n
        ensures a[k / EntsPerBlock, k % EntsPerBlock] == old(a[k / EntsPerBlock, k % EntsPerBlock])
      {
        assert k / EntsPerBlock < n / EntsPerBlock || k % EntsPerBlock < nr;
      }
    }

    /**
     * rpi_cache_flush_finish: clear the unused slots of the last, partly
     * filled block, then pass each block in use to vcsm_clean_invalid, whose
     * outcomes are `fails`. The blocks passed hold the requests in order,
     * padded with zero slots; the result is -1 if any call failed and 0
     * otherwise.
     */
    method Finish(fails: seq<bool>) returns (rc: int, calls: seq<seq<Entry>>)
      requires Valid() && |fails| >= BlockCount
      modifies a
      ensures Entries() == old(Entries())
      ensures |calls| == Blocks(n)
      ensures forall i :: 0 <= i < |calls| ==> |calls[i]| == EntsPerBlock
      ensures forall i, j :: 0 <= i < |calls| && 0 <= j < EntsPerBlock ==>
        calls[i][j] == if EntsPerBlock * i + j < n then Entries()[EntsPerBlock * i + j] else Zero
      ensures rc == 0 || rc == -1
      ensures rc == -1 <==> exists i :: 0 <= i < |calls| && fails[i]
    {
      ClearTail();
      rc := 0;
      calls := [];
      var na := 0;
      while na * EntsPerBlock < n
        invariant na <= Blocks(n) && |calls| == na
        invariant forall i :: 0 <= i < na ==> calls[i] == Block(i)
        invariant rc == 0 || rc == -1
        invariant rc == -1 <==> exists i :: 0 <= i < na && fails[i]
      {
        calls := calls + [Block(na)];
        if fails[na] {
          rc := -1;
        }
        na := na + 1;
      }
      forall i, j | 0 <= i < |calls| && 0 <= j < EntsPerBlock
        ensures calls[i][j] == if EntsPerBlock * i + j < n then Entries()[EntsPerBlock * i + j] else Zero
      {
        SlotOf(n, i, j);
        assert calls[i][j] == a[i, j];
      }
    }
  }

  /**
   * Slot j of block i holds request 8 * i + j; in a block in use, a slot
   * past the last request is in the last, partly filled block.
   */
  lemma SlotOf(n: nat, i: nat, j: nat)
    requires j < EntsPerBlock && i < Blocks(n)
    ensures (EntsPerBlock * i + j) / EntsPerBlock == i && (EntsPerBlock * i + j) % EntsPerBlock == j
    ensures EntsPerBlock * i + j >= n ==>
      i == n / EntsPerBlock && n % EntsPerBlock != 0 && n % EntsPerBlock <= j
  {
  }
}
