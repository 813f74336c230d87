/**
 * The inter-prediction command queues of hevcdec.c (HEVCRpiInterPredEnv):
 * one GPU buffer split into n queues that are used a group of n_grp at a
 * time, each command going to the least-loaded queue of the current group,
 * with the group advancing after every CTU that used it.
 *
 * A queue is modelled by the sequence of records written into it (the setup
 * record, prediction commands and sync link words) and by its fill, the byte
 * distance from qpu_mc_base to qpu_mc_curr. The link word the source writes
 * at the end of the previous command is the `fn` of the command that follows.
 */
module InterQueues {
  import opened Bits
  import opened Outcome

  /** The QPU entry point a command links to (s->qpu.y_p00, y_pxx, ...). */
  datatype Fn = YP00 | YPxx | YB00 | YBxx | CPxx | CPxxL1 | CBxx

  /** A source block position and the frame it is read from. */
  datatype Src = Src(x: int, y: int, base: int)

  /**
   * One prediction command: its entry point, block size, destination
   * address, the source blocks of list 0 and list 1 it reads, its packed
   * filter fractions and its weight words.
   */
  datatype McCmd = McCmd(fn: Fn, w: nat, h: nat, dst: int,
                         src1: Option<Src>, src2: Option<Src>,
                         frac: seq<int>, weights: seq<int>)

  datatype Entry = Setup | Cmd(cmd: McCmd) | SyncWord

  /** Byte sizes of the setup record and of the command structs. */
  datatype Layout = Layout(setup: nat, yP00: nat, yP: nat, cP: nat, cB: nat)

  function CmdBytes(f: Fn, l: Layout): nat
  {
    match f
    case YP00 => l.yP00
    case YPxx => l.yP
    case YB00 => l.yP
    case YBxx => l.yP
    case CPxx => l.cP
    case CPxxL1 => l.cP
    case CBxx => l.cB
  }

  /** A sync is one 32-bit link word. */
  function EntryBytes(e: Entry, l: Layout): nat
  {
    match e
    case Setup => l.setup
    case Cmd(c) => CmdBytes(c.fn, l)
    case SyncWord => 4
  }

  /** The bytes a queue's records occupy: qpu_mc_curr - qpu_mc_base. */
  function Bytes(q: seq<Entry>, l: Layout): nat
  {
    if |q| == 0 then 0 else Bytes(q[..|q| - 1], l) + EntryBytes(q[|q| - 1], l)
  }

  lemma BytesAppend(q: seq<Entry>, e: Entry, l: Layout)
    ensures Bytes(q + [e], l) == Bytes(q, l) + EntryBytes(e, l)
  {
    assert (q + [e])[..|q|] == q;
  }

  /** Rewriting a record in place with one of the same size leaves the fill alone. */
  lemma {:induction false} BytesReplace(q: seq<Entry>, k: nat, e: Entry, l: Layout)
    requires k < |q| && EntryBytes(e, l) == EntryBytes(q[k], l)
    ensures Bytes(q[k := e], l) == Bytes(q, l)
  {
    var q' := q[k := e];
    if k < |q| - 1 {
      assert q'[..|q'| - 1] == q[..|q| - 1][k := e];
      BytesReplace(q[..|q| - 1], k, e, l);
    } else {
      assert q'[..|q'| - 1] == q[..|q| - 1];
    }
  }

  function Sum(s: seq<nat>): nat
  {
    if |s| == 0 then 0 else Sum(s[..|s| - 1]) + s[|s| - 1]
  }

  lemma {:induction false} SumAdd(s: seq<nat>, i: nat, v: nat)
    requires i < |s|
    ensures Sum(s[i := s[i] + v]) == Sum(s) + v
  {
    var s' := s[i := s[i] + v];
    if i < |s| - 1 {
      assert s'[..|s'| - 1] == s[..|s| - 1][i := s[i] + v];
      SumAdd(s[..|s| - 1], i, v);
    } else {
      assert s'[..|s'| - 1] == s[..|s| - 1];
    }
  }

  lemma {:induction false} SumZero(s: seq<nat>)
    requires forall i :: 0 <= i < |s| ==> s[i] == 0
    ensures Sum(s) == 0
  {
    if |s| > 0 {
      SumZero(s[..|s| - 1]);
    }
  }

  /** c is the first queue of some group: a multiple of the group size g. */
  predicate GroupStart(c: nat, g: nat)
    decreases c
  {
    c == 0 || (g >= 1 && c >= g && GroupStart(c - g, g))
  }

  /** A group that starts below a whole number of groups lies entirely below it. */
  lemma {:induction false} GroupFits(c: nat, n: nat, g: nat)
    requires g >= 1 && GroupStart(c, g) && GroupStart(n, g) && c < n
    ensures c + g <= n
  {
    if c > 0 {
      GroupFits(c - g, n - g, g);
    }
  }

  /** set_ipe_from_ici: the per-queue size, numbytes / n rounded down to a word. */
  function QueueSize(numBytes: nat, n: nat): nat
    requires n >= 1
  {
    var d := numBytes / n;
    d - d % 4
  }

  /** Byte offset of queue i's qpu_mc_base from the start of the buffer. */
  function QueueOffset(i: nat, numBytes: nat, n: nat): nat
    requires n >= 1
  {
    i * QueueSize(numBytes, n)
  }

  /**
   * The queues of set_ipe_from_ici are word aligned, pairwise disjoint and lie
   * inside the buffer.
   */
  lemma QueueLayout(numBytes: nat, n: nat, i: nat, j: nat)
    requires 1 <= n && i < j < n
    ensures QueueOffset(i, numBytes, n) % 4 == 0
    ensures QueueOffset(i, numBytes, n) + QueueSize(numBytes, n) <= QueueOffset(j, numBytes, n)
    ensures QueueOffset(j, numBytes, n) + QueueSize(numBytes, n) <= numBytes
  {
    var d := numBytes / n;
    var q := QueueSize(numBytes, n);
    var w := d / 4;
    assert q == 4 * w;
    MulFour(i, w);
    MulSuccLeft(i, q);
    MulMonotone(i + 1, j, q);
    MulSuccLeft(j, q);
    MulMonotone(j + 1, n, q);
    MulMonotone(q, d, n);
    DivBound(numBytes, n);
  }

  lemma MulMonotone(a: nat, b: nat, c: nat)
    requires a <= b
    ensures a * c <= b * c
  {
  }

  lemma MulFour(i: nat, w: nat)
    ensures i * (4 * w) == 4 * (i * w)
  {
  }

  lemma MulSuccLeft(a: nat, c: nat)
    ensures (a + 1) * c == a * c + c
  {
  }

  lemma DivBound(x: nat, n: nat)
    requires n >= 1
    ensures (x / n) * n <= x
  {
  }

  class InterPredEnv {
    const nMax: nat
    const nGrp: nat
    const minGap: nat
    /** gptr.numbytes: the size of the GPU buffer the queues share. */
    const numBytes: nat
    const layout: Layout
    var n: nat
    var maxFill: nat
    var curr: nat
    var used: bool
    var usedGrp: bool
    const load: array<nat>
    const base: array<nat>
    const fill: array<nat>
    const queue: array<seq<Entry>>
    /** Every command handed to a queue, in issue order. */
    ghost var issued: seq<McCmd>

    ghost predicate Valid()
      reads this, fill, queue
    {
      nGrp >= 1 &&
      load.Length == nMax && base.Length == nMax && fill.Length == nMax && queue.Length == nMax &&
      load != base && load != fill && base != fill &&
      n <= nMax && GroupStart(n, nGrp) &&
      forall i :: 0 <= i < n ==> fill[i] == Bytes(queue[i], layout)
    }

    /** The current group lies inside the n queues in use. */
    predicate Ready()
      reads this
    {
      nGrp >= 1 && n >= 1 && curr + nGrp <= n && GroupStart(curr, nGrp)
    }

    /** rpi_inter_pred_alloc: a zeroed environment over nMax queues. */
    constructor (nMaxQ: nat, nGroup: nat, totalSize: nat, gap: nat, l: Layout)
      requires nGroup >= 1
      ensures nMax == nMaxQ && nGrp == nGroup && numBytes == totalSize && minGap == gap && layout == l
      ensures n == 0 && curr == 0 && maxFill == 0 && !used && !usedGrp && issued == []
      ensures Valid()
      ensures fresh(load) && fresh(base) && fresh(fill) && fresh(queue)
    {
      nMax := nMaxQ;
      nGrp := nGroup;
      numBytes := totalSize;
      minGap := gap;
      layout := l;
      n := 0;
      maxFill := 0;
      curr := 0;
      used := false;
      usedGrp := false;
      load := new nat[nMaxQ](_ => 0);
      base := new nat[nMaxQ](_ => 0);
      fill := new nat[nMaxQ](_ => 0);
      queue := new seq<Entry>[nMaxQ](_ => []);
      issued := [];
    }

    /**
     * set_ipe_from_ici: use nq queues of QueueSize bytes each, starting at
     * arm + i * QueueSize, all empty; max_fill is computed in 32-bit unsigned
     * arithmetic and wraps when min_gap exceeds the queue size.
     */
    method SetFromChanInfo(nq: nat, arm: nat)
      requires Valid()
      requires 1 <= nq <= nMax && GroupStart(nq, nGrp)
      modifies this, base, fill, queue
      ensures Valid()
      ensures n == nq && maxFill == (QueueSize(numBytes, nq) - minGap) % Word
      ensures forall i :: 0 <= i < nq ==>
                base[i] == arm + QueueOffset(i, numBytes, nq) && queue[i] == [] && fill[i] == 0
      ensures curr == old(curr) && used == old(used) && usedGrp == old(usedGrp) && issued == old(issued)
    {
      var q1 := QueueSize(numBytes, nq);
      n := nq;
      maxFill := (q1 - minGap) % Word;
      var i := 0;
      while i < nq
        modifies base, fill, queue
        invariant 0 <= i <= nq
        invariant forall k :: 0 <= k < i ==> base[k] == arm + QueueOffset(k, numBytes, nq) && queue[k] == [] && fill[k] == 0
      {
        base[i] := arm + i * q1;
        queue[i] := [];
        fill[i] := 0;
        i := i + 1;
      }
    }

    /**
     * The selection loop of rpi_nxt_pred: the queue of the current group with
     * the smallest load, the lowest such index on ties.
     */
    method LeastLoaded() returns (qi: nat)
      requires Valid() && Ready()
      ensures curr <= qi < curr + nGrp
      ensures forall j :: curr <= j < curr + nGrp ==> load[qi] <= load[j]
      ensures forall j :: curr <= j < qi ==> load[qi] < load[j]
    {
      qi := curr;
      var i := 1;
      while i != nGrp
        invariant 1 <= i <= nGrp
        invariant curr <= qi < curr + i
        invariant forall j :: curr <= j < curr + i ==> load[qi] <= load[j]
        invariant forall j :: curr <= j < qi ==> load[qi] < load[j]
      {
        if load[curr + i] < load[qi] {
          qi := curr + i;
        }
        i := i + 1;
      }
    }

    /**
     * rpi_nxt_pred: put the command on the least-loaded queue of the group,
     * add load_val to that queue's load only and mark the group used.
     */
    method NxtPred(loadVal: nat, cmd: McCmd) returns (qi: nat)
      requires Valid() && Ready()
      modifies this, load, fill, queue
      ensures Valid() && Ready()
      ensures curr == old(curr) && n == old(n) && maxFill == old(maxFill) && used == old(used)
      ensures curr <= qi < curr + nGrp
      ensures forall j :: curr <= j < curr + nGrp ==> old(load[qi]) <= old(load[j])
      ensures forall j :: curr <= j < qi ==> old(load[qi]) < old(load[j])
      ensures load[..] == old(load[..])[qi := old(load[qi]) + loadVal]
      ensures queue[..] == old(queue[..])[qi := old(queue[qi]) + [Cmd(cmd)]]
      ensures fill[..] == old(fill[..])[qi := old(fill[qi]) + CmdBytes(cmd.fn, layout)]
      ensures Sum(load[..n]) == old(Sum(load[..n])) + loadVal
      ensures usedGrp && issued == old(issued) + [cmd]
    {
      qi := LeastLoaded();
      ghost var before := load[..n];
      load[qi] := load[qi] + loadVal;
      assert load[..n] == before[qi := before[qi] + loadVal];
      SumAdd(before, qi, loadVal);
      BytesAppend(queue[qi], Cmd(cmd), layout);
      queue[qi] := queue[qi] + [Cmd(cmd)];
      fill[qi] := fill[qi] + CmdBytes(cmd.fn, layout);
      usedGrp := true;
      issued := issued + [cmd];
    }

    /** rpi_inter_pred_sync: every queue in use gets a sync word and drops its load to 0. */
    method Sync()
      requires Valid()
      modifies load, fill, queue
      ensures Valid()
      ensures forall i :: 0 <= i < n ==>
                queue[i] == old(queue[i]) + [SyncWord] && fill[i] == old(fill[i]) + 4 && load[i] == 0
      ensures forall i :: n <= i < nMax ==>
                queue[i] == old(queue[i]) && fill[i] == old(fill[i]) && load[i] == old(load[i])
      ensures Sum(load[..n]) == 0
    {
      var i := 0;
      while i != n
        modifies load, fill, queue
        invariant 0 <= i <= n
        invariant forall k :: 0 <= k < i ==>
                    queue[k] == old(queue[k]) + [SyncWord] && fill[k] == old(fill[k]) + 4 && load[k] == 0
        invariant forall k :: i <= k < nMax ==>
                    queue[k] == old(queue[k]) && fill[k] == old(fill[k]) && load[k] == old(load[k])
        invariant forall k :: 0 <= k < n ==> fill[k] == Bytes(queue[k], layout)
      {
        BytesAppend(queue[i], SyncWord, layout);
        queue[i] := queue[i] + [SyncWord];
        fill[i] := fill[i] + 4;
        load[i] := 0;
        i := i + 1;
      }
      SumZero(load[..n]);
    }

    /**
     * rpi_inter_pred_next_ctu: nothing happens unless the group was used;
     * otherwise the next group becomes current (wrapping to the first group
     * with a sync of every queue), and the result is -1 exactly when some
     * queue of the new group is filled beyond max_fill.
     */
    method NextCtu() returns (r: int)
      requires Valid() && Ready()
      modifies this, load, fill, queue
      ensures Valid() && Ready()
      ensures n == old(n) && maxFill == old(maxFill) && issued == old(issued)
      ensures !old(usedGrp) ==>
                r == 0 && curr == old(curr) && used == old(used) && !usedGrp &&
                load[..] == old(load[..]) && fill[..] == old(fill[..]) && queue[..] == old(queue[..])
      ensures old(usedGrp) ==>
                used && !usedGrp &&
                curr == (if old(curr) + nGrp >= n then 0 else old(curr) + nGrp) &&
                (r == -1 <==> exists i :: curr <= i < curr + nGrp && fill[i] > maxFill) &&
                (r == 0 || r == -1)
      ensures old(usedGrp) && old(curr) + nGrp >= n ==>
                (forall i :: 0 <= i < n ==>
                   queue[i] == old(queue[i]) + [SyncWord] && fill[i] == old(fill[i]) + 4 && load[i] == 0) &&
                (forall i :: n <= i < nMax ==>
                   queue[i] == old(queue[i]) && fill[i] == old(fill[i]) && load[i] == old(load[i]))
      ensures old(usedGrp) && old(curr) + nGrp < n ==>
                load[..] == old(load[..]) && fill[..] == old(fill[..]) && queue[..] == old(queue[..])
    {
      if !usedGrp {
        return 0;
      }
      curr := curr + nGrp;
      if curr >= n {
        curr := 0;
        GroupFits(0, n, nGrp);
        Sync();
      } else {
        GroupFits(curr, n, nGrp);
      }
      used := true;
      usedGrp := false;
      var over := GroupOverfilled();
      r := if over then -1 else 0;
    }

    /** The max_fill check of rpi_inter_pred_next_ctu over the queues of the current group. */
    method GroupOverfilled() returns (over: bool)
      requires Ready() && curr + nGrp <= fill.Length
      ensures over <==> exists i :: curr <= i < curr + nGrp && fill[i] > maxFill
    {
      var i := 0;
      while i != nGrp
        invariant 0 <= i <= nGrp
        invariant forall k :: curr <= k < curr + i ==> fill[k] <= maxFill
      {
        if fill[i + curr] > maxFill {
          return true;
        }
        i := i + 1;
      }
      return false;
    }

    /** rpi_inter_pred_reset: back to the first group, nothing used, every queue empty and unloaded. */
    method Reset()
      requires Valid()
      modifies this, load, fill, queue
      ensures Valid()
      ensures n == old(n) && maxFill == old(maxFill) && issued == old(issued)
      ensures curr == 0 && !used && !usedGrp
      ensures forall i :: 0 <= i < n ==> queue[i] == [] && fill[i] == 0 && load[i] == 0
      ensures n >= 1 ==> Ready()
    {
      curr := 0;
      used := false;
      usedGrp := false;
      var i := 0;
      while i != n
        modifies load, fill, queue
        invariant 0 <= i <= n
        invariant forall k :: 0 <= k < i ==> queue[k] == [] && fill[k] == 0 && load[k] == 0
        invariant forall k :: i <= k < n ==> fill[k] == Bytes(queue[k], layout)
      {
        queue[i] := [];
        fill[i] := 0;
        load[i] := 0;
        i := i + 1;
      }
      if n >= 1 {
        GroupFits(0, n, nGrp);
      }
    }

    /**
     * The per-environment part of rpi_begin: after a reset, each queue in use
     * starts with its setup record and qpu_mc_curr just past it.
     */
    method Begin()
      requires Valid() && n >= 1
      modifies this, load, fill, queue
      ensures Valid() && Ready()
      ensures n == old(n) && maxFill == old(maxFill) && issued == old(issued)
      ensures curr == 0 && !used && !usedGrp
      ensures forall i :: 0 <= i < n ==> queue[i] == [Setup] && fill[i] == layout.setup && load[i] == 0
    {
      Reset();
      var i := 0;
      while i != n
        modifies fill, queue
        invariant 0 <= i <= n
        invariant Valid() && Ready() && curr == 0 && !used && !usedGrp
        invariant forall k :: 0 <= k < n ==> load[k] == 0
        invariant forall k :: 0 <= k < i ==> queue[k] == [Setup] && fill[k] == layout.setup
        invariant forall k :: i <= k < n ==> queue[k] == [] && fill[k] == 0
      {
        BytesAppend([], Setup, layout);
        queue[i] := [Setup];
        fill[i] := layout.setup;
        i := i + 1;
      }
    }
  }
}
