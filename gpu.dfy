/**
 * The shared GPU environment of rpi_qpu.c: the pool of wait objects handed
 * out as sync handles (vq_wait_pool_init, vq_wait_new, vq_wait_delete), the
 * reference count that keeps the environment alive (gpu_lock_ref,
 * gpu_unlock_unref and their users gpu_ref, gpu_unref, vpu_qpu_init,
 * vpu_qpu_term), and the VPU code address read from it (vpu_get_fn).
 *
 * The mutex is not modelled: every method runs with it held. The foreign
 * set-up calls of gpu_init (mailbox, shared memory, code upload) are
 * summarised by one input, whether initialisation succeeds, and the bus
 * address the code block is given.
 */
module Gpu {
  import opened Bits

  /** VQ_WAIT_POOL_SIZE */
  const PoolSize := 16
  /** The NULL link of the free list. */
  const Null := -1
  /** QPU_CODE_SIZE and VPU_CODE_SIZE, in 32-bit words. */
  const QpuCodeSize := 4098
  const VpuCodeSize := 2048

  /** The free list of wait objects: pool[i].next, and the head. */
  class WaitPool {
    /** pool[i].next, as an index into the pool or Null. */
    const next: array<int>
    var head: int
    /** The free objects in list order, starting at head. */
    ghost var free: seq<nat>

    /**
     * Following next from head visits exactly the free objects, each once,
     * and ends at Null; an object off the list has a Null link.
     */
    ghost predicate Valid()
      reads this, next
    {
      next.Length == PoolSize &&
      (forall k :: 0 <= k < |free| ==> free[k] < PoolSize) &&
      (forall i, j :: 0 <= i < j < |free| ==> free[i] != free[j]) &&
      (if |free| == 0 then head == Null else head == free[0] && next[free[|free| - 1]] == Null) &&
      (forall k :: 0 <= k < |free| - 1 ==> next[free[k]] == free[k + 1]) &&
      (forall i :: 0 <= i < PoolSize && i !in free ==> next[i] == Null)
    }

    /** The pool as calloc leaves it inside a new environment: all links NULL. */
    constructor ()
      ensures Valid() && fresh(next)
      ensures free == [] && head == Null
    {
      next := new int[PoolSize](i => Null);
      head := Null;
      free := [];
    }

    /** vq_wait_pool_init: pool[i] links to pool[i + 1], the last to NULL, and head is pool[0]. */
    method Init()
      requires next.Length == PoolSize
      modifies this, next
      ensures Valid()
      ensures head == 0 && free == seq(PoolSize, k => k)
      ensures forall i :: 0 <= i < PoolSize ==> i in free
      ensures forall i :: 0 <= i < PoolSize - 1 ==> next[i] == i + 1
      ensures next[PoolSize - 1] == Null
    {
      var i := 0;
      while i != PoolSize
        invariant 0 <= i <= PoolSize
        invariant forall k :: 0 <= k < i ==> next[k] == k + 1
        modifies next
      {
        next[i] := i + 1;
        i := i + 1;
      }
      head := 0;
      next[PoolSize - 1] := Null;
      free := seq(PoolSize, k => k);
      forall i | 0 <= i < PoolSize
        ensures i in free
      {
        assert free[i] == i;
      }
    }

    /** vq_wait_pool_deinit: head and every link become NULL. */
    method Deinit()
      requires next.Length == PoolSize
      modifies this, next
      ensures Valid()
      ensures head == Null && free == []
    {
      head := Null;
      var i := 0;
      while i != PoolSize
        invariant 0 <= i <= PoolSize
        invariant forall k :: 0 <= k < i ==> next[k] == Null
        modifies next
      {
        next[i] := Null;
        i := i + 1;
      }
      free := [];
    }

    /** The pop in vq_wait_new: take the head object and clear its link. */
    method Pop() returns (w: nat)
      requires Valid() && |free| > 0
      modifies this, next
      ensures Valid()
      ensures w == old(head) && w == old(free)[0] && free == old(free)[1..]
      ensures next[w] == Null
    {
      w := head;
      head := next[w];
      next[w] := Null;
      free := free[1..];
    }

    /** The push in vq_wait_delete: the returned object becomes the head. */
    method Push(w: nat)
      requires Valid() && w < PoolSize && w !in free
      modifies this, next
      ensures Valid()
      ensures head == w && free == [w] + old(free)
    {
      next[w] := head;
      head := w;
      free := [w] + free;
    }
  }

  /** gpu_env_t, behind the global gpu pointer. */
  class GpuEnv {
    /** gpu != NULL */
    var present: bool
    var openCount: nat
    var initCount: nat
    /** vpu_i_cache_flushed: 0 until the first VPU job is built, then 1. */
    var iCacheFlushed: nat
    /** code_gm_ptr.vc, the bus address of the code block. */
    var codeVc: nat
    const pool: WaitPool
    /** The wait objects handed out and not yet returned. */
    ghost var out: set<nat>
    /** References held through gpu_ref and the gpu_malloc calls. */
    ghost var otherRefs: nat

    /**
     * While the environment exists its reference count is the number of
     * holders: one per outstanding wait object, one per vpu_qpu_init not yet
     * matched by vpu_qpu_term, and the others; the objects handed out are
     * exactly those off the free list. Without it every count is 0.
     */
    ghost predicate Valid()
      reads this, pool, pool.next
    {
      pool.Valid() && iCacheFlushed <= 1 &&
      (present ==>
        (forall i :: 0 <= i < PoolSize ==> (i in out <==> i !in pool.free)) &&
        (forall i :: i in out ==> i < PoolSize) &&
        openCount == |out| + initCount + otherRefs) &&
      (!present ==> openCount == 0 && initCount == 0 && otherRefs == 0 && out == {})
    }

    /** The static gpu pointer before first use: NULL. */
    constructor ()
      ensures Valid() && !present && fresh(pool) && fresh(pool.next)
    {
      present := false;
      openCount := 0;
      initCount := 0;
      iCacheFlushed := 0;
      codeVc := 0;
      pool := new WaitPool();
      out := {};
      otherRefs := 0;
    }

    /**
     * gpu_lock_ref: build the environment if there is none (gpu_init, which
     * may fail, leaving gpu NULL), then count one more reference. Returns
     * whether a reference was taken.
     */
    method LockRef(initOk: bool, vc: nat) returns (ok: bool)
      requires pool.Valid()
      modifies this, pool, pool.next
      ensures pool.Valid()
      ensures ok <==> old(present) || initOk
      ensures present == ok
      ensures !ok ==> unchanged(this, pool, pool.next)
      ensures old(present) ==>
        (unchanged(pool, pool.next) &&
         openCount == old(openCount) + 1 && initCount == old(initCount) &&
         iCacheFlushed == old(iCacheFlushed) && codeVc == old(codeVc))
      ensures !old(present) && initOk ==>
        openCount == 1 && initCount == 0 && iCacheFlushed == 0 && codeVc == vc &&
        pool.head == 0 && pool.free == seq(PoolSize, k => k) &&
        (forall i :: 0 <= i < PoolSize ==> i in pool.free)
      ensures out == old(out) && otherRefs == old(otherRefs)
    {
      if !present {
        if !initOk {
          return false;
        }
        openCount := 0;
        initCount := 0;
        iCacheFlushed := 0;
        codeVc := vc;
        pool.Init();
        present := true;
      }
      openCount := openCount + 1;
      ok := true;
    }

    /** gpu_unlock_unref: drop one reference and tear the environment down (gpu_term) when none is left. */
    method UnlockUnref()
      requires present && openCount >= 1 && pool.Valid()
      modifies this, pool, pool.next
      ensures pool.Valid()
      ensures openCount == old(openCount) - 1
      ensures present <==> openCount > 0
      ensures openCount > 0 ==> unchanged(pool, pool.next)
      ensures openCount == 0 ==> pool.head == Null && pool.free == []
      ensures initCount == old(initCount) && iCacheFlushed == old(iCacheFlushed) && codeVc == old(codeVc)
      ensures out == old(out) && otherRefs == old(otherRefs)
    {
      openCount := openCount - 1;
      if openCount == 0 {
        present := false;
        pool.Deinit();
      }
    }

    /** gpu_ref: take a reference, building the environment if need be; a failed build is ignored. */
    method GpuRef(initOk: bool, vc: nat)
      requires Valid()
      modifies this, pool, pool.next
      ensures Valid()
      ensures present <==> old(present) || initOk
      ensures present ==> otherRefs == old(otherRefs) + 1 && out == old(out) && initCount == old(initCount)
    {
      var ok := LockRef(initOk, vc);
      if ok {
        otherRefs := otherRefs + 1;
      }
    }

    /** gpu_unref (and gpu_free): drop a reference taken by gpu_ref or a gpu_malloc. */
    method GpuUnref()
      requires Valid() && present && otherRefs >= 1
      modifies this, pool, pool.next
      ensures Valid()
      ensures otherRefs == old(otherRefs) - 1 && openCount == old(openCount) - 1
      ensures present <==> openCount > 0
    {
      otherRefs := otherRefs - 1;
      UnlockUnref();
    }

    /**
     * vq_wait_new: take a reference and pop a wait object. The source
     * dereferences the environment and the head unchecked, so the
     * environment must exist or be built, and the pool must not be empty.
     */
    method WaitNew(initOk: bool, vc: nat) returns (w: nat)
      requires Valid()
      requires present || initOk
      requires present ==> |pool.free| > 0
      modifies this, pool, pool.next
      ensures Valid() && present
      ensures w < PoolSize && w !in pool.free && w in out && w !in old(out)
      ensures out == old(out) + {w}
      ensures old(present) ==> w == old(pool.head) && pool.free == old(pool.free)[1..]
      ensures !old(present) ==> w == 0 && |pool.free| == PoolSize - 1
      ensures openCount == (if old(present) then old(openCount) else 0) + 1
    {
      var ok := LockRef(initOk, vc);
      ghost var before := pool.free;
      w := pool.Pop();
      TakeFromPool(out, before, w);
      out := out + {w};
    }

    /** vq_wait_delete: push a wait object back and drop the reference vq_wait_new took. */
    method WaitDelete(w: nat)
      requires Valid() && present && w in out
      modifies this, pool, pool.next
      ensures Valid()
      ensures out == old(out) - {w}
      ensures openCount == old(openCount) - 1
      ensures present <==> openCount > 0
      ensures present ==> pool.head == w && pool.free == [w] + old(pool.free)
    {
      pool.Push(w);
      out := out - {w};
      UnlockUnref();
      assert |out| == 0 ==> out == {};
    }

    /**
     * vpu_qpu_init: take a reference that the matching vpu_qpu_term
     * returns. -1 when the environment cannot be built.
     */
    method VpuQpuInit(initOk: bool, vc: nat) returns (r: int)
      requires Valid()
      modifies this, pool, pool.next
      ensures Valid()
      ensures r == 0 || r == -1
      ensures r == 0 <==> old(present) || initOk
      ensures r == 0 ==> present && initCount == (if old(present) then old(initCount) else 0) + 1
      ensures r == -1 ==> !present && openCount == 0
    {
      var ok := LockRef(initOk, vc);
      if !ok {
        return -1;
      }
      initCount := initCount + 1;
      r := 0;
    }

    /** vpu_qpu_term: return the reference of one vpu_qpu_init. */
    method VpuQpuTerm()
      requires Valid() && present && initCount >= 1
      modifies this, pool, pool.next
      ensures Valid()
      ensures initCount == old(initCount) - 1 && openCount == old(openCount) - 1
      ensures present <==> openCount > 0
    {
      initCount := initCount - 1;
      UnlockUnref();
    }

    /**
     * vpu_get_fn: the bus address of the VPU transform code for the bit
     * depth, which sits after the QPU code in the code block (8-bit) or one
     * VPU code block further on (10-bit). Other depths abort.
     */
    function VpuGetFn(bitDepth: nat): (r: nat)
      reads this
      requires present && (bitDepth == 8 || bitDepth == 10)
      ensures r < Word
      ensures bitDepth == 8 ==> r == (codeVc + 4 * QpuCodeSize) % Word
      ensures bitDepth == 10 ==> r == (VpuGetFn(8) + 4 * VpuCodeSize) % Word
    {
      if bitDepth == 8 then (codeVc + 4 * QpuCodeSize) % Word
      else
        WordAdd(codeVc + 4 * QpuCodeSize, 4 * VpuCodeSize);
        (codeVc + 4 * (QpuCodeSize + VpuCodeSize)) % Word
    }
  }

  /** Adding to a 32-bit sum is adding to the unreduced sum. */
  lemma WordAdd(x: nat, b: nat)
    ensures (x % Word + b) % Word == (x + b) % Word
  {
    assert x == (x / Word) * Word + x % Word;
  }

  /**
   * Moving the head of the free list to the objects handed out keeps every
   * object in exactly one of the two, and hands out one more.
   */
  lemma TakeFromPool(out: set<nat>, before: seq<nat>, w: nat)
    requires |before| > 0 && before[0] == w
    requires forall i, j :: 0 <= i < j < |before| ==> before[i] != before[j]
    requires forall i :: 0 <= i < PoolSize ==> (i in out <==> i !in before)
    requires forall k :: 0 <= k < |before| ==> before[k] < PoolSize
    ensures w !in out && |out + {w}| == |out| + 1
    ensures forall i :: 0 <= i < PoolSize ==> (i in out + {w} <==> i !in before[1..])
  {
    PopMembers(before, w);
    assert w in before;
  }

  /** The objects left on the free list after a pop are the others. */
  lemma PopMembers(before: seq<nat>, w: nat)
    requires |before| > 0 && before[0] == w
    requires forall i, j :: 0 <= i < j < |before| ==> before[i] != before[j]
    ensures forall i :: i in before[1..] <==> i in before && i != w
  {
    forall i
      ensures i in before[1..] <==> i in before && i != w
    {
      if i in before && i != w {
        var k :| 0 <= k < |before| && before[k] == i;
        assert before[1..][k - 1] == i;
      }
    }
  }
}
