/**
 * The ring of jobs handed from pass0 (CTU parsing, on the decoding thread)
 * to pass1 (transforms, prediction and deblocking, on the worker thread) in
 * hevcdec.c, with the per-CTU batching rule of hls_decode_entry.
 *
 * Each semaphore is a counter: a sem_post increments it and a blocking
 * sem_wait becomes a precondition that the counter is positive followed by
 * a decrement. Slots jb0 and jb1 are indices into the ring.
 */
module JobRing {

  datatype CtbPos = CtbPos(xCtb: nat, yCtb: nat)

  /** The slot after `slot` in a ring of `size` slots: one on, and the last wraps to 0. */
  function NextSlot(slot: nat, size: nat): (r: nat)
    requires size >= 1
    ensures r < size
    ensures slot < size ==> r == if slot + 1 == size then 0 else slot + 1
  {
    assert slot + 1 == size ==> (slot + 1) % size == 0;
    (slot + 1) % size
  }

  /** The slot reached from `slot` after k advances: k on, as long as the ring does not wrap. */
  function AdvanceBy(slot: nat, k: nat, size: nat): (r: nat)
    requires size >= 1
    ensures slot < size ==> r < size
    ensures slot + k < size ==> r == slot + k
  {
    if k == 0 then slot else NextSlot(AdvanceBy(slot, k - 1, size), size)
  }

  /** Counting k advances from a slot: no wrap before the end of the ring, one wrap after it. */
  lemma {:induction false} AdvanceByUnwrapped(slot: nat, k: nat, size: nat)
    requires slot < size && k < 2 * size - slot
    ensures AdvanceBy(slot, k, size) == if slot + k < size then slot + k else slot + k - size
  {
    if k > 0 {
      AdvanceByUnwrapped(slot, k - 1, size);
    }
  }

  /**
   * After as many submissions as there are slots pass0 is back on the slot it
   * started from, and not before.
   */
  lemma RingPeriod(slot: nat, size: nat)
    requires slot < size
    ensures AdvanceBy(slot, size, size) == slot
    ensures forall k :: 0 < k < size ==> AdvanceBy(slot, k, size) != slot
  {
    AdvanceByUnwrapped(slot, size, size);
    forall k | 0 < k < size
      ensures AdvanceBy(slot, k, size) != slot
    {
      AdvanceByUnwrapped(slot, k, size);
    }
  }

  /**
   * The states one slot can be in between calls: free (no count posted), queued
   * for pass1 (sem_in posted) or done by pass1 (sem_out posted). Only a
   * pending slot is queued or done, and a done slot's deblock list has been
   * consumed.
   */
  predicate SlotState(pending: bool, semIn: nat, semOut: nat, deblk: seq<CtbPos>, isJb0: bool)
  {
    (if pending then semIn + semOut == 1 else semIn == 0 && semOut == 0) &&
    (semOut == 1 ==> deblk == []) &&
    (!pending && !isJb0 ==> deblk == []) &&
    (isJb0 ==> !pending)
  }

  class Worker {
    const size: nat
    const maxCtuCount: nat
    const pending: array<bool>
    const terminate: array<bool>
    const semIn: array<nat>
    const semOut: array<nat>
    const deblk: array<seq<CtbPos>>
    var pass0Job: nat
    var pass1Job: nat
    var jb0: nat
    var jb1: nat
    var ctuCount: nat

    ghost predicate Valid()
      reads this
    {
      size >= 1 &&
      pending.Length == size && terminate.Length == size &&
      semIn.Length == size && semOut.Length == size && deblk.Length == size &&
      pending != terminate && semIn != semOut &&
      pass0Job < size && pass1Job < size && jb0 == pass0Job && jb1 == pass1Job
    }

    /**
     * The protocol invariant between whole batching steps: every slot is free,
     * queued or done, no slot is terminating, the pass0 slot is free and its
     * deblock list holds exactly the CTUs counted since the last submit, of
     * which there are at most max_ctu_count.
     */
    ghost predicate Ring()
      reads this, pending, terminate, semIn, semOut, deblk
    {
      Valid() &&
      ctuCount <= maxCtuCount && |deblk[jb0]| == ctuCount &&
      (forall i :: 0 <= i < size ==> !terminate[i]) &&
      (forall i :: 0 <= i < size ==> SlotState(pending[i], semIn[i], semOut[i], deblk[i], i == jb0))
    }

    /** hevc_init_worker: every slot zeroed, both cursors on slot 0. */
    constructor (maxJobs: nat, maxCtus: nat)
      requires maxJobs >= 1
      ensures size == maxJobs && maxCtuCount == maxCtus
      ensures pass0Job == 0 && pass1Job == 0 && ctuCount == 0
      ensures fresh(pending) && fresh(terminate) && fresh(semIn) && fresh(semOut) && fresh(deblk)
      ensures Ring()
      ensures forall i :: 0 <= i < size ==> !pending[i] && semIn[i] == 0 && semOut[i] == 0 && deblk[i] == []
    {
      size := maxJobs;
      maxCtuCount := maxCtus;
      pending := new bool[maxJobs](_ => false);
      terminate := new bool[maxJobs](_ => false);
      semIn := new nat[maxJobs](_ => 0);
      semOut := new nat[maxJobs](_ => 0);
      deblk := new seq<CtbPos>[maxJobs](_ => []);
      pass0Job := 0;
      pass1Job := 0;
      jb0 := 0;
      jb1 := 0;
      ctuCount := 0;
    }

    /** worker_submit_job: hand the pass0 slot to pass1 and move pass0 on. */
    method SubmitJob()
      requires Valid()
      modifies this`pass0Job, this`jb0, semIn, pending
      ensures Valid()
      ensures pass0Job == NextSlot(old(pass0Job), size) && jb0 == pass0Job
      ensures pending[..] == old(pending[..])[old(jb0) := true]
      ensures semIn[..] == old(semIn[..])[old(jb0) := old(semIn[jb0]) + 1]
    {
      semIn[jb0] := semIn[jb0] + 1;
      pending[jb0] := true;
      pass0Job := (pass0Job + 1) % size;
      jb0 := pass0Job;
    }

    /** worker_complete_job: move pass1 on, then signal the finished slot. */
    method CompleteJob()
      requires Valid()
      modifies this`pass1Job, this`jb1, semOut
      ensures Valid()
      ensures pass1Job == NextSlot(old(pass1Job), size) && jb1 == pass1Job
      ensures semOut[..] == old(semOut[..])[old(jb1) := old(semOut[jb1]) + 1]
    {
      var done := jb1;
      pass1Job := (pass1Job + 1) % size;
      jb1 := pass1Job;
      semOut[done] := semOut[done] + 1;
    }

    /**
     * worker_pass0_ready: if the pass0 slot is still pending, take its sem_out
     * (pass1 must have posted it) and clear the flag; no other slot changes.
     */
    method Pass0Ready()
      requires Valid()
      requires pending[jb0] ==> semOut[jb0] >= 1
      modifies pending, semOut
      ensures !pending[jb0]
      ensures pending[..] == old(pending[..])[jb0 := false]
      ensures semOut[..] == if old(pending[jb0]) then old(semOut[..])[jb0 := old(semOut[jb0]) - 1]
                            else old(semOut[..])
    {
      if pending[jb0] {
        semOut[jb0] := semOut[jb0] - 1;
        pending[jb0] := false;
      }
    }

    /**
     * worker_wait: take sem_out of every pending slot and clear its flag, so
     * that afterwards no slot is pending.
     */
    method Wait()
      requires Valid()
      requires forall i :: 0 <= i < size && pending[i] ==> semOut[i] >= 1
      modifies pending, semOut
      ensures forall i :: 0 <= i < size ==> !pending[i]
      ensures forall i :: 0 <= i < size ==>
                semOut[i] == if old(pending[i]) then old(semOut[i]) - 1 else old(semOut[i])
    {
      var i := 0;
      while i != size
        invariant 0 <= i <= size
        invariant forall k :: 0 <= k < i ==> !pending[k]
        invariant forall k :: i <= k < size ==> pending[k] == old(pending[k])
        invariant forall k :: 0 <= k < size ==>
                    semOut[k] == if k < i && old(pending[k]) then old(semOut[k]) - 1 else old(semOut[k])
      {
        if pending[i] {
          semOut[i] := semOut[i] - 1;
          pending[i] := false;
        }
        i := i + 1;
      }
    }

    /**
     * One turn of worker_start's loop: take sem_in of the pass1 slot; stop on
     * its terminate flag (raised only by hevc_exit_worker), otherwise run
     * pass1 (whose deblocking consumes the slot's CTU list) and complete the
     * job, which keeps the protocol invariant.
     */
    method WorkerStep() returns (stop: bool)
      requires Valid() && semIn[jb1] >= 1
      requires terminate[jb1] || Ring()
      modifies this`pass1Job, this`jb1, semIn, semOut, deblk
      ensures Valid()
      ensures stop <==> old(terminate[jb1])
      ensures stop ==>
        pass1Job == old(pass1Job) && semIn[..] == old(semIn[..])[old(jb1) := old(semIn[jb1]) - 1] &&
        semOut[..] == old(semOut[..]) && deblk[..] == old(deblk[..])
      ensures !stop ==>
        Ring() && pass1Job == NextSlot(old(pass1Job), size) &&
        deblk[..] == old(deblk[..])[old(jb1) := []] &&
        semIn[..] == old(semIn[..])[old(jb1) := 0] &&
        semOut[..] == old(semOut[..])[old(jb1) := 1]
    {
      var slot := jb1;
      semIn[slot] := semIn[slot] - 1;
      if terminate[slot] {
        stop := true;
        return;
      }
      deblk[slot] := [];
      CompleteJob();
      stop := false;
      assert forall i :: 0 <= i < size && i != slot ==>
        semIn[i] == old(semIn[i]) && semOut[i] == old(semOut[i]) && deblk[i] == old(deblk[i]);
    }

    /**
     * rpi_do_all_passes: only with no background job (both cursors on the same,
     * non-pending slot); runs pass1 on that slot here and starts a new batch.
     */
    method DoAllPasses()
      requires Valid()
      requires pass0Job == pass1Job && jb0 == jb1 && !pending[jb0]
      modifies this`ctuCount, deblk
      ensures deblk[..] == old(deblk[..])[jb0 := []]
      ensures ctuCount == 0
    {
      deblk[jb1] := [];
      ctuCount := 0;
    }

    /**
     * The RPI step at the end of each CTU in hls_decode_entry: the batch is
     * full when ctu_count had reached max_ctu_count or either inter queue set
     * reported a dangerously full queue. The CTU joins the pass0 slot's
     * deblock list; a full batch is then submitted to pass1 (reference
     * pictures, waiting for the next slot to be free) or run on this thread.
     */
    method EndCtu(pos: CtbPos, lumaFull: bool, chromaFull: bool, usedForRef: bool)
      returns (submitted: bool)
      requires Ring()
      requires (ctuCount >= maxCtuCount || lumaFull || chromaFull) && usedForRef ==>
                 var n := NextSlot(jb0, size);
                 (n == jb0 || pending[n]) ==> semOut[n] == 1
      requires (ctuCount >= maxCtuCount || lumaFull || chromaFull) && !usedForRef ==>
                 pass0Job == pass1Job
      modifies this`pass0Job, this`jb0, this`ctuCount, pending, semIn, semOut, deblk
      ensures Ring()
      ensures var full := old(ctuCount) >= maxCtuCount || lumaFull || chromaFull;
              if !full then
                ctuCount == old(ctuCount) + 1 && pass0Job == old(pass0Job) &&
                deblk[..] == old(deblk[..])[jb0 := old(deblk[jb0]) + [pos]] &&
                pending[..] == old(pending[..]) && semIn[..] == old(semIn[..]) &&
                semOut[..] == old(semOut[..]) && !submitted
              else if usedForRef then
                submitted && ctuCount == 0 && pass0Job == NextSlot(old(pass0Job), size) &&
                deblk[..] == old(deblk[..])[old(jb0) := old(deblk[jb0]) + [pos]] &&
                semIn[..] == old(semIn[..])[old(jb0) := 1] &&
                pending[..] == old(pending[..])[old(jb0) := true][jb0 := false] &&
                semOut[..] == (if old(pending[..])[jb0] then old(semOut[..])[jb0 := 0] else old(semOut[..]))
              else
                !submitted && ctuCount == 0 && pass0Job == old(pass0Job) &&
                deblk[..] == old(deblk[..])[jb0 := []] && pending[..] == old(pending[..]) &&
                semIn[..] == old(semIn[..]) && semOut[..] == old(semOut[..])
    {
      var full := ctuCount >= maxCtuCount || lumaFull || chromaFull;
      deblk[jb0] := deblk[jb0] + [pos];
      ctuCount := ctuCount + 1;
      submitted := false;
      if full {
        if usedForRef {
          SubmitJob();
          Pass0Ready();
          ctuCount := 0;
          submitted := true;
        } else {
          DoAllPasses();
        }
      }
    }

    /**
     * The end of hls_decode_entry: once pass1 has caught up (every queued job
     * done, both cursors on the same slot), wait for all jobs and finish any
     * partly filled batch on this thread.
     */
    method EndSlice()
      requires Ring()
      requires pass0Job == pass1Job
      requires forall i :: 0 <= i < size ==> semIn[i] == 0
      modifies this`ctuCount, pending, semOut, deblk
      ensures Ring()
      ensures ctuCount == 0
      ensures forall i :: 0 <= i < size ==> !pending[i] && semOut[i] == 0 && deblk[i] == []
    {
      Wait();
      if ctuCount != 0 {
        DoAllPasses();
      }
      assert forall i :: 0 <= i < size ==> deblk[i] == [];
    }

    /**
     * hevc_exit_worker followed by the worker's next turn: the worker takes
     * the sem_in just posted for its slot, sees the terminate flag and leaves
     * its loop, whatever state the ring was in.
     */
    method ExitThenStep() returns (stop: bool)
      requires Valid()
      modifies this`pass1Job, this`jb1, terminate, semIn, semOut, deblk
      ensures stop
    {
      Exit();
      stop := WorkerStep();
    }

    /** hevc_exit_worker: raise every terminate flag, then post every sem_in. */
    method Exit()
      requires Valid()
      modifies terminate, semIn
      ensures forall i :: 0 <= i < size ==> terminate[i] && semIn[i] == old(semIn[i]) + 1
    {
      var i := 0;
      while i < size
        invariant 0 <= i <= size
        invariant forall k :: 0 <= k < i ==> terminate[k]
        invariant semIn[..] == old(semIn[..])
      {
        terminate[i] := true;
        i := i + 1;
      }
      i := 0;
      while i < size
        invariant 0 <= i <= size
        invariant forall k :: 0 <= k < size ==> terminate[k]
        invariant forall k :: 0 <= k < size ==> semIn[k] == old(semIn[k]) + (if k < i then 1 else 0)
      {
        semIn[i] := semIn[i] + 1;
        i := i + 1;
      }
    }
  }
}
