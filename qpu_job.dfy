/**
 * The VPU/QPU job builder of rpi_qpu.c (vpu_qpu_job_env_t): up to four jobs
 * for vc_gpuserv_execute_code, with a mask of the kinds of jobs added since
 * the last sync point, and the sync handles it gives out (add_vpu, add_qpu,
 * add_sync_this, start, wait).
 *
 * The GPU executes nothing here: vc_gpuserv_execute_code's result is an
 * input and the semaphore wait of vpu_qpu_wait is not modelled.
 */
module QpuJob {
  import opened Bits
  import opened Outcome
  import opened Gpu

  /** VPU_QPU_MASK_QPU, VPU_QPU_MASK_VPU and VPU_QPU_JOB_MAX. */
  const MaskQpu := 1
  const MaskVpu := 2
  const JobMax := 4
  /** The QPU timeout every QPU job is given. */
  const QpuTimeout := 5000
  /** QPU_FLAGS_NO_FLUSH_VPU: the flags every QPU job is given. */
  const QpuFlagsNoFlushVpu := 1

  /** The command of a gpu_job_s: a VPU call with its seven words, a QPU batch, or a sync on a mask. */
  datatype Command =
    | ExecuteVpu(q: seq<nat>)
    | ExecuteQpu(jobs: nat, noflush: nat, timeout: nat, mail: seq<nat>)
    | ExecuteSync(mask: nat)

  /** A job and the wait object its callback posts, if any. */
  datatype Job = Job(command: Command, callback: Option<nat>)

  /** The mask bit a job's kind sets; a sync job sets none. */
  function KindBit(c: Command): nat
  {
    match c
    case ExecuteVpu(_) => MaskVpu
    case ExecuteQpu(_, _, _, _) => MaskQpu
    case ExecuteSync(_) => 0
  }

  predicate HasQpu(m: nat)
  {
    m % 2 == 1
  }

  predicate HasVpu(m: nat)
  {
    (m / 2) % 2 == 1
  }

  /** m | b for a two-bit mask m and a single bit b (or none). */
  function OrBit(m: nat, b: nat): (r: nat)
    requires m < 4 && (b == 0 || b == MaskQpu || b == MaskVpu)
    ensures r < 4
    ensures HasQpu(r) <==> HasQpu(m) || b == MaskQpu
    ensures HasVpu(r) <==> HasVpu(m) || b == MaskVpu
  {
    if b == 0 then m
    else if b == MaskQpu then (if HasQpu(m) then m else m + 1)
    else if HasVpu(m) then m else m + 2
  }

  /** The mask the builder accumulates over a run of jobs, one OR per job. */
  function MaskOf(js: seq<Job>): (m: nat)
    ensures m < 4
  {
    if |js| == 0 then 0 else OrBit(MaskOf(js[..|js| - 1]), KindBit(js[|js| - 1].command))
  }

  /** The accumulated mask names exactly the kinds of jobs in the run. */
  lemma {:induction false} MaskOfKinds(js: seq<Job>)
    ensures HasQpu(MaskOf(js)) <==> exists k :: 0 <= k < |js| && js[k].command.ExecuteQpu?
    ensures HasVpu(MaskOf(js)) <==> exists k :: 0 <= k < |js| && js[k].command.ExecuteVpu?
    ensures MaskOf(js) == 0 <==> forall k :: 0 <= k < |js| ==> js[k].command.ExecuteSync?
  {
    if |js| > 0 {
      var init := js[..|js| - 1];
      MaskOfKinds(init);
      assert forall k :: 0 <= k < |init| ==> init[k] == js[k];
    }
  }

  /**
   * A mask of QPU alone over jobs that are VPU or QPU calls means every job
   * is a QPU job: the case where one callback on the last job covers them
   * all, as the QPU runs its jobs in order.
   */
  lemma QpuOnlyMask(js: seq<Job>)
    requires forall k :: 0 <= k < |js| ==> !js[k].command.ExecuteSync?
    requires MaskOf(js) == MaskQpu
    ensures forall k :: 0 <= k < |js| ==> js[k].command.ExecuteQpu?
  {
    MaskOfKinds(js);
  }

  /** vpu_code | vpu_i_cache_flushed for a flag of 0 or 1: bit 0 set asks the VPU not to flush its I-cache. */
  function WithNoFlush(code: nat, flag: nat): (r: nat)
    requires flag <= 1
    ensures r % 2 == 1 <==> code % 2 == 1 || flag == 1
    ensures r / 2 == code / 2
  {
    if flag == 1 && code % 2 == 0 then code + 1 else code
  }

  /** vpu_qpu_job_env_t */
  class JobEnv {
    var n: nat
    var mask: nat
    const j: array<Job>
    /** Where the jobs since the last sync point begin. */
    ghost var sinceSync: nat

    /**
     * The mask is the OR of the kinds of the jobs added since the last sync
     * point, which are VPU or QPU calls; no job from there on carries a
     * callback yet.
     */
    ghost predicate Valid()
      reads this, j
    {
      j.Length == JobMax && n <= JobMax && sinceSync <= n &&
      mask == MaskOf(j[sinceSync..n]) &&
      (forall k :: sinceSync <= k < n ==> !j[k].command.ExecuteSync?) &&
      (forall k :: sinceSync <= k < JobMax ==> j[k].callback.None?)
    }

    /** The jobs built so far. */
    ghost function Jobs(): seq<Job>
      reads this, j
      requires Valid()
    {
      j[..n]
    }

    /** vpu_qpu_job_new: a zeroed environment. */
    constructor ()
      ensures Valid() && n == 0 && mask == 0 && fresh(j)
    {
      n := 0;
      mask := 0;
      j := new Job[JobMax](i => Job(ExecuteSync(0), None));
      sinceSync := 0;
    }

    /** new_job plus the command write: the next slot gets the command and keeps its (empty) callback. */
    method Append(c: Command)
      requires Valid() && n < JobMax && !c.ExecuteSync?
      modifies this, j
      ensures Valid()
      ensures Jobs() == old(Jobs()) + [Job(c, None)]
      ensures mask == OrBit(old(mask), KindBit(c)) && sinceSync == old(sinceSync)
    {
      j[n] := j[n].(command := c);
      n := n + 1;
      mask := OrBit(mask, KindBit(c));
      ghost var w := j[sinceSync..n];
      assert w[..|w| - 1] == old(j[sinceSync..n]);
    }

    /**
     * vpu_qpu_job_add_vpu: for a non-zero code address, one VPU job whose
     * first word is the address with the no-flush bit of the GPU's
     * vpu_i_cache_flushed, which then becomes 1. A zero address adds
     * nothing.
     */
    method AddVpu(gpu: GpuEnv, code: nat, r0: nat, r1: nat, r2: nat, r3: nat, r4: nat, r5: nat)
      requires Valid() && gpu.Valid() && gpu.present
      requires code != 0 ==> n < JobMax
      modifies this, j, gpu
      ensures Valid() && gpu.Valid() && sinceSync == old(sinceSync)
      ensures code == 0 ==> unchanged(this, j, gpu)
      ensures code != 0 ==>
        Jobs() == old(Jobs()) + [Job(ExecuteVpu([WithNoFlush(code, old(gpu.iCacheFlushed)), r0, r1, r2, r3, r4, r5]), None)] &&
        mask == OrBit(old(mask), MaskVpu) && gpu.iCacheFlushed == 1
      ensures gpu.present && gpu.openCount == old(gpu.openCount) && gpu.out == old(gpu.out)
    {
      if code != 0 {
        Append(ExecuteVpu([WithNoFlush(code, gpu.iCacheFlushed), r0, r1, r2, r3, r4, r5]));
        gpu.iCacheFlushed := 1;
      }
    }

    /**
     * vpu_qpu_job_add_qpu: for a non-zero count, one QPU job with its mail,
     * the no-VPU-flush flag and the fixed timeout; a zero count adds nothing.
     */
    method AddQpu(count: nat, mail: seq<nat>)
      requires Valid() && (count != 0 ==> n < JobMax)
      modifies this, j
      ensures Valid() && sinceSync == old(sinceSync)
      ensures count == 0 ==> unchanged(this, j)
      ensures count != 0 ==>
        Jobs() == old(Jobs()) + [Job(ExecuteQpu(count, QpuFlagsNoFlushVpu, QpuTimeout, mail), None)] &&
        mask == OrBit(old(mask), MaskQpu)
    {
      if count != 0 {
        Append(ExecuteQpu(count, QpuFlagsNoFlushVpu, QpuTimeout, mail));
      }
    }

    /**
     * vpu_qpu_job_add_sync_this: with no job since the last sync point, no
     * handle. Otherwise take a wait object; when one job was built in all,
     * or only QPU jobs since the last sync, the last job posts it, else a
     * sync job on the accumulated mask is appended to post it. The mask is
     * cleared either way.
     */
    method AddSyncThis(gpu: GpuEnv) returns (waitH: Option<nat>)
      requires Valid() && gpu.Valid()
      requires mask != 0 ==> gpu.present && |gpu.pool.free| > 0
      requires mask != 0 && n != 1 && mask != MaskQpu ==> n < JobMax
      modifies this, j, gpu, gpu.pool, gpu.pool.next
      ensures Valid() && gpu.Valid() && mask == 0
      ensures old(mask) == 0 ==> waitH.None? && unchanged(this, j, gpu, gpu.pool, gpu.pool.next)
      ensures old(mask) != 0 ==>
        waitH.Some? && waitH.value in gpu.out && waitH.value !in old(gpu.out) &&
        gpu.out == old(gpu.out) + {waitH.value}
      ensures old(mask) != 0 && (old(n) == 1 || old(mask) == MaskQpu) ==>
        n == old(n) && Jobs() == old(Jobs())[n - 1 := old(Jobs())[n - 1].(callback := waitH)]
      ensures old(mask) != 0 && old(n) != 1 && old(mask) != MaskQpu ==>
        Jobs() == old(Jobs()) + [Job(ExecuteSync(old(mask)), waitH)]
    {
      if mask == 0 {
        return None;
      }
      var w := gpu.WaitNew(true, 0);
      PostSync(w);
      waitH := Some(w);
    }

    /**
     * The job side of vpu_qpu_job_add_sync_this: the last job, or a new sync
     * job on the mask, posts wait object w; a new sync point starts after it.
     */
    method PostSync(w: nat)
      requires Valid() && mask != 0
      requires n != 1 && mask != MaskQpu ==> n < JobMax
      modifies this, j
      ensures Valid() && mask == 0
      ensures old(n) == 1 || old(mask) == MaskQpu ==>
        n == old(n) && Jobs() == old(Jobs())[n - 1 := old(Jobs())[n - 1].(callback := Some(w))]
      ensures old(n) != 1 && old(mask) != MaskQpu ==>
        Jobs() == old(Jobs()) + [Job(ExecuteSync(old(mask)), Some(w))]
    {
      assert j[sinceSync..n] != [];
      if n == 1 || mask == MaskQpu {
        assert j[n - 1].callback.None?;
        j[n - 1] := j[n - 1].(callback := Some(w));
      } else {
        j[n] := Job(ExecuteSync(mask), Some(w));
        n := n + 1;
      }
      mask := 0;
      sinceSync := n;
    }

    /** vpu_qpu_job_start: 0 without jobs, else vc_gpuserv_execute_code's result on all the jobs built. */
    method Start(execRc: int) returns (rc: int, submitted: seq<Job>)
      requires Valid()
      ensures n == 0 ==> rc == 0 && submitted == []
      ensures n > 0 ==> rc == execRc && submitted == Jobs() && |submitted| <= JobMax
    {
      if n == 0 {
        return 0, [];
      }
      return execRc, j[..n];
    }
  }

  /**
   * vpu_qpu_wait: with a handle, clear it, then (after the wait) return the
   * wait object to the pool; without one, nothing. A NULL handle pointer and
   * a NULL handle are both None here.
   */
  method VpuQpuWait(gpu: GpuEnv, waitH: Option<nat>) returns (cleared: Option<nat>)
    requires gpu.Valid()
    requires waitH.Some? ==> gpu.present && waitH.value in gpu.out
    modifies gpu, gpu.pool, gpu.pool.next
    ensures cleared.None? && gpu.Valid()
    ensures waitH.None? ==> unchanged(gpu, gpu.pool, gpu.pool.next)
    ensures waitH.Some? ==>
      gpu.out == old(gpu.out) - {waitH.value} && gpu.openCount == old(gpu.openCount) - 1 &&
      (gpu.present ==> gpu.pool.head == waitH.value)
  {
    cleared := None;
    if waitH.Some? {
      gpu.WaitDelete(waitH.value);
    }
  }
}
