/**
 * The per-PU command generation of rpi_pred_y, rpi_pred_y_b, rpi_pred_c and
 * rpi_pred_c_b in hevcdec.c: a prediction block is cut into 16- or 8-wide
 * column chunks, and each chunk becomes one command on the least-loaded
 * queue of the current group. Mono-predicted luma blocks 8 wide may instead
 * be merged into the previous command (the last_y8_p optimisation).
 */
module InterPred {
  import opened Bits
  import opened Outcome
  import opened InterQueues

  /** RPI_CHROMA_BLOCK_WIDTH */
  const ChromaBlockWidth: nat := 8
  /** MC_DUMMY_X / MC_DUMMY_Y: the source used for the unused half of an 8-wide luma command. */
  const McDummyX: int := -32
  const McDummyY: int := -32

  datatype Mv = Mv(x: int, y: int)

  /** One column chunk of a block: its start_x and its width bw. */
  datatype Chunk = Chunk(x: nat, w: nat)

  /** A position in a queue: the command last_y8_p points at. */
  datatype CmdRef = CmdRef(q: nat, pos: nat)

  /** The sequence parameter set flags offset_depth_adj reads. */
  datatype DepthAdj = DepthAdj(highPrecisionOffsets: bool, bitDepth: nat)

  function Min(a: int, b: int): int { if a < b then a else b }

  /**
   * The start_x loop shared by the rpi_pred_* functions: from `start` on, in
   * steps of `step`, chunks of width FFMIN(total - start_x, step).
   */
  function Chunks(total: nat, step: nat, start: nat): seq<Chunk>
    requires step >= 1
    decreases if start < total then total - start else 0
  {
    if start >= total then [] else [Chunk(start, Min(total - start, step))] + Chunks(total, step, start + step)
  }

  function SumWidths(cs: seq<Chunk>): nat
  {
    if |cs| == 0 then 0 else cs[0].w + SumWidths(cs[1..])
  }

  /**
   * The chunks tile the columns start..total exactly: they are contiguous,
   * begin at start and end at total, every chunk but the last is a full step
   * wide, no chunk is empty or wider than a step, and the widths add up.
   */
  lemma ChunksTile(total: nat, step: nat, start: nat)
    requires step >= 1 && start <= total
    ensures var cs := Chunks(total, step, start);
      SumWidths(cs) == total - start &&
      (|cs| == 0 <==> start == total) &&
      (|cs| > 0 ==> cs[0].x == start && cs[|cs| - 1].x + cs[|cs| - 1].w == total) &&
      (forall k :: 0 <= k < |cs| ==> 1 <= cs[k].w <= step) &&
      (forall k :: 0 <= k < |cs| - 1 ==> cs[k].w == step && cs[k].x + cs[k].w == cs[k + 1].x)
  {
    ChunksSum(total, step, start);
    ChunksEnd(total, step, start);
    ChunksSteps(total, step, start);
  }

  /** Unfolding Chunks once: a first chunk at start, then the chunks from start + step. */
  lemma ChunksUnfold(total: nat, step: nat, start: nat)
    requires step >= 1 && start < total
    ensures var cs := Chunks(total, step, start);
      |cs| >= 1 && cs[0] == Chunk(start, Min(total - start, step)) &&
      cs[1..] == Chunks(total, step, start + step)
  {
  }

  lemma {:induction false} ChunksSum(total: nat, step: nat, start: nat)
    requires step >= 1 && start <= total
    decreases total - start
    ensures SumWidths(Chunks(total, step, start)) == total - start
  {
    if start < total {
      ChunksUnfold(total, step, start);
      if start + step <= total {
        ChunksSum(total, step, start + step);
      }
    }
  }

  lemma {:induction false} ChunksEnd(total: nat, step: nat, start: nat)
    requires step >= 1 && start <= total
    decreases total - start
    ensures var cs := Chunks(total, step, start);
      (|cs| == 0 <==> start == total) &&
      (|cs| > 0 ==> cs[0].x == start && cs[|cs| - 1].x + cs[|cs| - 1].w == total)
  {
    if start < total {
      ChunksUnfold(total, step, start);
      var cs := Chunks(total, step, start);
      if start + step < total {
        ChunksEnd(total, step, start + step);
        assert cs[|cs| - 1] == cs[1..][|cs| - 2];
      }
    }
  }

  lemma {:induction false} ChunksSteps(total: nat, step: nat, start: nat)
    requires step >= 1 && start <= total
    decreases total - start
    ensures var cs := Chunks(total, step, start);
      (forall k :: 0 <= k < |cs| ==> 1 <= cs[k].w <= step) &&
      (forall k :: 0 <= k < |cs| - 1 ==> cs[k].w == step && cs[k].x + cs[k].w == cs[k + 1].x)
  {
    if start < total {
      ChunksUnfold(total, step, start);
      var cs := Chunks(total, step, start);
      var rest := Chunks(total, step, start + step);
      if start + step < total {
        ChunksSteps(total, step, start + step);
        ChunksEnd(total, step, start + step);
        forall k | 0 <= k < |cs|
          ensures 1 <= cs[k].w <= step
          ensures k < |cs| - 1 ==> cs[k].w == step && cs[k].x + cs[k].w == cs[k + 1].x
        {
          if k > 0 {
            assert cs[k] == rest[k - 1];
          }
          if 0 < k < |cs| - 1 {
            assert cs[k + 1] == rest[k];
          }
        }
      } else {
        assert rest == [];
      }
    }
  }

  /** The number of chunks is the width divided by the step, rounded up. */
  lemma {:induction false} ChunksCount(total: nat, step: nat, start: nat)
    requires step >= 1 && start <= total
    decreases total - start
    ensures var cs := Chunks(total, step, start);
      (|cs| - 1) * step < total - start <= |cs| * step || (|cs| == 0 && start == total)
  {
    if start < total && start + step < total {
      ChunksCount(total, step, start + step);
    }
  }

  /** What a PU asks for: the inputs each rpi_pred_* function turns into its commands. */
  datatype Pred =
    | LumaP00(x1: int, y1: int, h: nat, wo: nat, dst: int, xshl: nat, base: int)
    | LumaPxx(x1: int, y1: int, h: nat, frac: nat, wo: nat, dst: int, xshl: nat, base: int, dummy: int)
    | LumaB(zero: bool, x1: int, y1: int, x2: int, y2: int, h: nat, frac: nat,
            wo1: nat, wo2: nat, dst: int, xshl: nat, base1: int, base2: int)
    | ChromaP(lx: nat, x1: int, y1: int, h: nat, cx: nat, cy: nat, woU: nat, woV: nat,
              dst: int, xshl: nat, base: int)
    | ChromaB(x1: int, y1: int, x2: int, y2: int, h: nat, fracs: seq<int>, weights: seq<int>,
              dst: int, xshl: nat, base1: int, base2: int)

  /** The chunk width: 16 for luma except filtered bi-prediction, 8 for that and for chroma. */
  function Step(p: Pred): nat
  {
    match p
    case LumaP00(_, _, _, _, _, _, _) => 16
    case LumaPxx(_, _, _, _, _, _, _, _, _) => 16
    case LumaB(zero, _, _, _, _, _, _, _, _, _, _, _, _) => if zero then 16 else 8
    case ChromaP(_, _, _, _, _, _, _, _, _, _, _) => ChromaBlockWidth
    case ChromaB(_, _, _, _, _, _, _, _, _, _, _) => ChromaBlockWidth
  }

  /** The load_val each chunk adds: the rows the QPU processes, with the filter run-up. */
  function LoadVal(p: Pred): nat
  {
    match p
    case LumaP00(_, _, h, _, _, _, _) => h
    case LumaPxx(_, _, h, _, _, _, _, _, _) => h + 7
    case LumaB(zero, _, _, _, _, h, _, _, _, _, _, _, _) => if zero then h else h + 7
    case ChromaP(_, _, _, h, _, _, _, _, _, _, _) => h + 3
    case ChromaB(_, _, _, _, h, _, _, _, _, _, _) => h * 2 + 3
  }

  /** The destination of the chunk starting at column x: dst + (start_x << xshl). */
  function ChunkDst(dst: int, x: nat, xshl: nat): int
  {
    dst + x * Pow2(xshl)
  }

  /** The command written for one chunk. */
  function ChunkCmd(p: Pred, c: Chunk): McCmd
  {
    match p
    case LumaP00(x1, y1, h, wo, dst, xshl, base) =>
      McCmd(YP00, c.w, h, ChunkDst(dst, c.x, xshl), Some(Src(x1 + c.x, y1, base)), None, [], [wo])
    case LumaPxx(x1, y1, h, frac, wo, dst, xshl, base, dummy) =>
      McCmd(YPxx, c.w, h, ChunkDst(dst, c.x, xshl), Some(Src(x1 + c.x, y1, base)),
            Some(if c.w <= 8 then Src(McDummyX, McDummyY, dummy) else Src(x1 + c.x + 8, y1, base)),
            [frac], [wo, wo])
    case LumaB(zero, x1, y1, x2, y2, h, frac, wo1, wo2, dst, xshl, base1, base2) =>
      McCmd(if zero then YB00 else YBxx, c.w, h, ChunkDst(dst, c.x, xshl),
            Some(Src(x1 + c.x, y1, base1)), Some(Src(x2 + c.x, y2, base2)), [frac], [wo1, wo2])
    case ChromaP(lx, x1, y1, h, cx, cy, woU, woV, dst, xshl, base) =>
      var src := Src(x1 + c.x, y1, base);
      McCmd(if lx == 0 then CPxx else CPxxL1, c.w, h, ChunkDst(dst, c.x, xshl),
            if lx == 0 then Some(src) else None, if lx == 0 then None else Some(src),
            [cx, cy], [woU, woV])
    case ChromaB(x1, y1, x2, y2, h, fracs, weights, dst, xshl, base1, base2) =>
      McCmd(CBxx, c.w, h, ChunkDst(dst, c.x, xshl),
            Some(Src(x1 + c.x, y1, base1)), Some(Src(x2 + c.x, y2, base2)), fracs, weights)
  }

  function Cmds(p: Pred, cs: seq<Chunk>): seq<McCmd>
  {
    if |cs| == 0 then [] else Cmds(p, cs[..|cs| - 1]) + [ChunkCmd(p, cs[|cs| - 1])]
  }

  /** The last command exactly 8 wide, the one rpi_pred_y leaves in last_y8_p. */
  function LastW8(cmds: seq<McCmd>): Option<McCmd>
  {
    if |cmds| == 0 then None
    else if cmds[|cmds| - 1].w == 8 then Some(cmds[|cmds| - 1])
    else LastW8(cmds[..|cmds| - 1])
  }

  lemma {:induction false} CmdsShape(p: Pred, cs: seq<Chunk>)
    ensures |Cmds(p, cs)| == |cs|
    ensures forall k :: 0 <= k < |cs| ==> Cmds(p, cs)[k] == ChunkCmd(p, cs[k])
  {
    if |cs| > 0 {
      CmdsShape(p, cs[..|cs| - 1]);
    }
  }

  /** With 16-wide steps only the final chunk can be 8 wide, so its command is the one kept. */
  lemma LastW8IsFinal(p: Pred, total: nat, start: nat)
    requires start <= total
    ensures var cs := Chunks(total, 16, start);
      LastW8(Cmds(p, cs)) == if |cs| > 0 && cs[|cs| - 1].w == 8 then Some(ChunkCmd(p, cs[|cs| - 1])) else None
  {
    var cs := Chunks(total, 16, start);
    var cmds := Cmds(p, cs);
    ChunksTile(total, 16, start);
    CmdsShape(p, cs);
    forall k | 0 <= k < |cs|
      ensures cmds[k].w == cs[k].w
    {
      ChunkCmdWidth(p, cs[k]);
    }
    LastW8OnlyFinal(cmds);
  }

  /** When every command but the last is 16 wide, LastW8 can only find the last one. */
  lemma LastW8OnlyFinal(cmds: seq<McCmd>)
    requires forall i :: 0 <= i < |cmds| - 1 ==> cmds[i].w == 16
    ensures LastW8(cmds) == if |cmds| > 0 && cmds[|cmds| - 1].w == 8 then Some(cmds[|cmds| - 1]) else None
  {
    if |cmds| > 0 && cmds[|cmds| - 1].w != 8 {
      NoW8Before(cmds, |cmds| - 1);
    }
  }

  lemma ChunkCmdWidth(p: Pred, c: Chunk)
    ensures ChunkCmd(p, c).w == c.w
  {
  }

  lemma {:induction false} NoW8Before(cmds: seq<McCmd>, k: nat)
    requires k <= |cmds|
    requires forall i :: 0 <= i < k ==> cmds[i].w == 16
    ensures LastW8(cmds[..k]) == None
  {
    if k > 0 {
      assert cmds[..k][..k - 1] == cmds[..k - 1];
      NoW8Before(cmds, k - 1);
    }
  }

  /** Appending a command: it is the last 8-wide one if it is 8 wide, otherwise the earlier one stays. */
  lemma LastW8Snoc(cmds: seq<McCmd>, c: McCmd)
    ensures LastW8(cmds + [c]) == if c.w == 8 then Some(c) else LastW8(cmds)
  {
    assert (cmds + [c])[..|cmds|] == cmds;
  }

  /** last_y8_p points at an earlier luma command of a queue in use. */
  predicate Y8Ref(env: InterPredEnv, r: CmdRef)
    reads env, env.queue
  {
    r.q < env.n && r.q < env.queue.Length && r.pos < |env.queue[r.q]| &&
    env.queue[r.q][r.pos].Cmd? && env.queue[r.q][r.pos].cmd.fn == YPxx &&
    env.queue[r.q][r.pos].cmd.w == 8 &&
    |env.queue[r.q][r.pos].cmd.frac| == 1 && |env.queue[r.q][r.pos].cmd.weights| == 2
  }

  function CmdAt(env: InterPredEnv, r: CmdRef): McCmd
    requires Y8Ref(env, r)
    reads env, env.queue
  {
    env.queue[r.q][r.pos].cmd
  }

  /**
   * The command issue loop of the rpi_pred_* functions: each command goes to
   * the queue rpi_nxt_pred picks, adding load_val to that queue's load.
   * Records already in a queue stay as they are, and the result locates the
   * last 8-wide command, which rpi_pred_y records in last_y8_p.
   */
  method IssueCmds(env: InterPredEnv, cmds: seq<McCmd>, loadVal: nat)
    returns (y8: Option<CmdRef>, ghost picks: seq<nat>)
    requires env.Valid() && env.Ready()
    modifies env, env.load, env.fill, env.queue
    ensures env.Valid() && env.Ready()
    ensures env.curr == old(env.curr) && env.n == old(env.n) && env.used == old(env.used)
    ensures env.maxFill == old(env.maxFill)
    ensures env.issued == old(env.issued) + cmds
    ensures Sum(env.load[..env.n]) == old(Sum(env.load[..env.n])) + loadVal * |cmds|
    ensures env.usedGrp == (old(env.usedGrp) || |cmds| > 0)
    ensures forall q :: 0 <= q < env.queue.Length ==> old(env.queue[q]) <= env.queue[q]
    ensures Grows(old(env.queue[..]), env.queue[..])
    ensures y8.Some? <==> LastW8(cmds).Some?
    ensures y8.Some? ==>
              (y8.value.q < env.n && y8.value.q < env.queue.Length && y8.value.pos < |env.queue[y8.value.q]| &&
               env.queue[y8.value.q][y8.value.pos] == Cmd(LastW8(cmds).value))
    ensures InRange(picks, env.n)
    ensures Dispatched(old(env.queue[..]), old(env.load[..]), env.queue[..], env.load[..],
                       picks, cmds, env.curr, env.nGrp, loadVal)
  {
    ghost var start := env.queue[..];
    ghost var load0 := env.load[..];
    var i := 0;
    y8 := None;
    picks := [];
    while i < |cmds|
      invariant 0 <= i <= |cmds|
      invariant env.Valid() && env.Ready()
      invariant env.curr == old(env.curr) && env.n == old(env.n) && env.used == old(env.used)
      invariant env.maxFill == old(env.maxFill)
      invariant env.issued == old(env.issued) + cmds[..i]
      invariant env.usedGrp == (old(env.usedGrp) || i > 0)
      invariant Tracks(env.queue[..], env.n, y8, LastW8(cmds[..i]))
      invariant Dispatched(start, load0, env.queue[..], env.load[..], picks, cmds[..i], env.curr, env.nGrp, loadVal)
    {
      y8, picks := IssueNext(env, cmds[i], loadVal, y8, LastW8(cmds[..i]), start, load0, picks, cmds[..i]);
      assert cmds[..i + 1] == cmds[..i] + [cmds[i]];
      LastW8Snoc(cmds[..i], cmds[i]);
      i := i + 1;
    }
    assert cmds[..i] == cmds;
    BalancedInGroup(load0, picks, env.curr, env.nGrp, loadVal);
    PlaceGrows(start, picks, cmds);
    ChargeSum(load0, picks, loadVal, env.n);
  }

  /** y8 locates `last`, the last 8-wide command issued so far, and is None when there is none. */
  ghost predicate Tracks(qs: seq<seq<Entry>>, n: nat, y8: Option<CmdRef>, last: Option<McCmd>)
  {
    (y8.Some? <==> last.Some?) && (y8.Some? ==> y8.value.q < n && Locates(qs, y8.value, last.value))
  }

  /**
   * One pass of the issue loop: command c goes through rpi_nxt_pred, the
   * dispatch so far grows by its pick, and y8 moves to it when it is 8 wide.
   */
  method IssueNext(env: InterPredEnv, c: McCmd, loadVal: nat, y8: Option<CmdRef>, ghost last: Option<McCmd>,
                   ghost start: seq<seq<Entry>>, ghost load0: seq<nat>, ghost picks: seq<nat>,
                   ghost done: seq<McCmd>)
    returns (y8': Option<CmdRef>, ghost picks': seq<nat>)
    requires env.Valid() && env.Ready()
    requires Tracks(env.queue[..], env.n, y8, last)
    requires Dispatched(start, load0, env.queue[..], env.load[..], picks, done, env.curr, env.nGrp, loadVal)
    modifies env, env.load, env.fill, env.queue
    ensures env.Valid() && env.Ready()
    ensures env.curr == old(env.curr) && env.n == old(env.n) && env.used == old(env.used)
    ensures env.maxFill == old(env.maxFill)
    ensures env.issued == old(env.issued) + [c] && env.usedGrp
    ensures Tracks(env.queue[..], env.n, y8', if c.w == 8 then Some(c) else last)
    ensures Dispatched(start, load0, env.queue[..], env.load[..], picks', done + [c], env.curr, env.nGrp, loadVal)
  {
    ghost var before := env.queue[..];
    ghost var loadBefore := env.load[..];
    var r := IssueOne(env, c, loadVal);
    DispatchedSnoc(start, load0, before, loadBefore, env.queue[..], env.load[..], picks, done,
                   env.curr, env.nGrp, loadVal, r.q, c);
    picks' := picks + [r.q];
    if c.w == 8 {
      y8' := Some(r);
    } else {
      y8' := y8;
      if y8.Some? {
        LocatesGrows(before, env.queue[..], y8.value, last.value);
      }
    }
  }

  /** One command through rpi_nxt_pred; the result is where it landed. */
  method IssueOne(env: InterPredEnv, c: McCmd, loadVal: nat) returns (r: CmdRef)
    requires env.Valid() && env.Ready()
    modifies env, env.load, env.fill, env.queue
    ensures env.Valid() && env.Ready()
    ensures env.curr == old(env.curr) && env.n == old(env.n) && env.used == old(env.used)
    ensures env.maxFill == old(env.maxFill)
    ensures env.issued == old(env.issued) + [c]
    ensures Sum(env.load[..env.n]) == old(Sum(env.load[..env.n])) + loadVal
    ensures env.usedGrp
    ensures Grows(old(env.queue[..]), env.queue[..])
    ensures r.q < env.n && Locates(env.queue[..], r, c)
    ensures r.pos == |old(env.queue[r.q])| && FirstLeast(old(env.load[..]), r.q, env.curr, env.nGrp)
    ensures env.queue[..] == old(env.queue[..])[r.q := old(env.queue[r.q]) + [Cmd(c)]]
    ensures env.load[..] == old(env.load[..])[r.q := old(env.load[r.q]) + loadVal]
  {
    ghost var before := env.queue[..];
    var qi := env.NxtPred(loadVal, c);
    GrowsByAppend(before, qi, Cmd(c));
    r := CmdRef(qi, |env.queue[qi]| - 1);
  }

  lemma MulSucc(a: nat, i: nat)
    ensures a * (i + 1) == a * i + a
  {
  }

  /** Every queue of `b` extends the same queue of `a`. */
  ghost predicate Grows(a: seq<seq<Entry>>, b: seq<seq<Entry>>)
  {
    |a| == |b| && forall q :: 0 <= q < |a| ==> a[q] <= b[q]
  }

  /** The queue position r holds command c. */
  ghost predicate Locates(qs: seq<seq<Entry>>, r: CmdRef, c: McCmd)
  {
    r.q < |qs| && r.pos < |qs[r.q]| && qs[r.q][r.pos] == Cmd(c)
  }

  lemma GrowsByAppend(a: seq<seq<Entry>>, qi: nat, e: Entry)
    requires qi < |a|
    ensures Grows(a, a[qi := a[qi] + [e]])
  {
  }

  lemma GrowsTrans(a: seq<seq<Entry>>, b: seq<seq<Entry>>, c: seq<seq<Entry>>)
    requires Grows(a, b) && Grows(b, c)
    ensures Grows(a, c)
  {
  }

  /** A position keeps its command while the queues only grow. */
  lemma LocatesGrows(a: seq<seq<Entry>>, b: seq<seq<Entry>>, r: CmdRef, c: McCmd)
    requires Grows(a, b) && Locates(a, r, c)
    ensures Locates(b, r, c)
  {
    assert a[r.q] <= b[r.q];
  }

  /** Every chosen queue is below n. */
  predicate InRange(picks: seq<nat>, n: nat)
  {
    forall k :: 0 <= k < |picks| ==> picks[k] < n
  }

  /**
   * The choice of rpi_nxt_pred's scan: qi is a least-loaded queue of the
   * group c..c+g-1, and the first one on ties.
   */
  predicate FirstLeast(load: seq<nat>, qi: nat, c: nat, g: nat)
  {
    c <= qi < c + g <= |load| &&
    (forall j :: c <= j < c + g ==> load[qi] <= load[j]) &&
    (forall j :: c <= j < qi ==> load[qi] < load[j])
  }

  /** The queues after command k went to the end of queue picks[k], for every k in order. */
  function Place(qs: seq<seq<Entry>>, picks: seq<nat>, cmds: seq<McCmd>): (r: seq<seq<Entry>>)
    requires |picks| == |cmds| && InRange(picks, |qs|)
    ensures |r| == |qs|
    decreases |picks|
  {
    if |picks| == 0 then qs
    else
      var k := |picks| - 1;
      var before := Place(qs, picks[..k], cmds[..k]);
      before[picks[k] := before[picks[k]] + [Cmd(cmds[k])]]
  }

  /** The loads after load_val was added to queue picks[k], for every k in order. */
  function Charge(load: seq<nat>, picks: seq<nat>, v: nat): (r: seq<nat>)
    requires InRange(picks, |load|)
    ensures |r| == |load|
    decreases |picks|
  {
    if |picks| == 0 then load
    else
      var k := |picks| - 1;
      var before := Charge(load, picks[..k], v);
      before[picks[k] := before[picks[k]] + v]
  }

  /** Every pick was the first least-loaded queue of the group under the loads left by the picks before it. */
  predicate Balanced(load: seq<nat>, picks: seq<nat>, c: nat, g: nat, v: nat)
    requires InRange(picks, |load|)
    decreases |picks|
  {
    |picks| == 0 ||
    var k := |picks| - 1;
    Balanced(load, picks[..k], c, g, v) && FirstLeast(Charge(load, picks[..k], v), picks[k], c, g)
  }

  /**
   * From queues q0 and loads l0 to q1 and l1, command k went to the end of
   * queue picks[k], chosen as rpi_nxt_pred chooses, and added v to its load.
   */
  predicate Dispatched(q0: seq<seq<Entry>>, l0: seq<nat>, q1: seq<seq<Entry>>, l1: seq<nat>,
                       picks: seq<nat>, cmds: seq<McCmd>, c: nat, g: nat, v: nat)
  {
    |picks| == |cmds| && |l0| == |q0| && InRange(picks, |q0|) &&
    Balanced(l0, picks, c, g, v) && l1 == Charge(l0, picks, v) && q1 == Place(q0, picks, cmds)
  }

  /** The commands that went to queue q, in issue order. */
  function Routed(picks: seq<nat>, cmds: seq<McCmd>, q: nat): seq<Entry>
    requires |picks| == |cmds|
    decreases |picks|
  {
    if |picks| == 0 then []
    else
      var k := |picks| - 1;
      Routed(picks[..k], cmds[..k], q) + (if picks[k] == q then [Cmd(cmds[k])] else [])
  }

  /** How many picks chose queue q. */
  function Count(picks: seq<nat>, q: nat): nat
    decreases |picks|
  {
    if |picks| == 0 then 0 else Count(picks[..|picks| - 1], q) + (if picks[|picks| - 1] == q then 1 else 0)
  }

  /** One more command through rpi_nxt_pred extends the dispatch by one pick. */
  lemma DispatchedSnoc(q0: seq<seq<Entry>>, l0: seq<nat>, qa: seq<seq<Entry>>, la: seq<nat>,
                       q1: seq<seq<Entry>>, l1: seq<nat>, picks: seq<nat>, cmds: seq<McCmd>,
                       c: nat, g: nat, v: nat, q: nat, cmd: McCmd)
    requires Dispatched(q0, l0, qa, la, picks, cmds, c, g, v) && q < |q0|
    requires FirstLeast(la, q, c, g)
    requires q1 == qa[q := qa[q] + [Cmd(cmd)]] && l1 == la[q := la[q] + v]
    ensures Dispatched(q0, l0, q1, l1, picks + [q], cmds + [cmd], c, g, v)
  {
    assert (picks + [q])[..|picks|] == picks;
    assert (cmds + [cmd])[..|cmds|] == cmds;
  }

  /**
   * The per-queue view of the placement: queue q ends with exactly the
   * commands routed to it, in issue order, after what it held before.
   */
  lemma {:induction false} PlaceRoutes(qs: seq<seq<Entry>>, picks: seq<nat>, cmds: seq<McCmd>, q: nat)
    requires |picks| == |cmds| && InRange(picks, |qs|) && q < |qs|
    ensures Place(qs, picks, cmds)[q] == qs[q] + Routed(picks, cmds, q)
    decreases |picks|
  {
    if |picks| > 0 {
      var k := |picks| - 1;
      PlaceRoutes(qs, picks[..k], cmds[..k], q);
    }
  }

  /** Each queue's load grows by load_val once per command it received. */
  lemma {:induction false} ChargeCount(load: seq<nat>, picks: seq<nat>, v: nat, q: nat)
    requires InRange(picks, |load|) && q < |load|
    ensures Charge(load, picks, v)[q] == load[q] + v * Count(picks, q)
    decreases |picks|
  {
    if |picks| > 0 {
      var k := |picks| - 1;
      ChargeCount(load, picks[..k], v, q);
    }
  }

  /** Placing commands only appends: every queue keeps what it held. */
  lemma {:induction false} PlaceGrows(qs: seq<seq<Entry>>, picks: seq<nat>, cmds: seq<McCmd>)
    requires |picks| == |cmds| && InRange(picks, |qs|)
    ensures Grows(qs, Place(qs, picks, cmds))
    decreases |picks|
  {
    if |picks| > 0 {
      var k := |picks| - 1;
      var before := Place(qs, picks[..k], cmds[..k]);
      PlaceGrows(qs, picks[..k], cmds[..k]);
      GrowsByAppend(before, picks[k], Cmd(cmds[k]));
      GrowsTrans(qs, before, Place(qs, picks, cmds));
    }
  }

  /** The loads of the queues in use grow in total by load_val per pick. */
  lemma {:induction false} ChargeSum(load: seq<nat>, picks: seq<nat>, v: nat, n: nat)
    requires n <= |load| && InRange(picks, n)
    ensures Sum(Charge(load, picks, v)[..n]) == Sum(load[..n]) + v * |picks|
    decreases |picks|
  {
    if |picks| > 0 {
      var k := |picks| - 1;
      var before := Charge(load, picks[..k], v);
      ChargeSum(load, picks[..k], v, n);
      assert Charge(load, picks, v)[..n] == before[..n][picks[k] := before[picks[k]] + v];
      SumAdd(before[..n], picks[k], v);
      MulSucc(v, k);
    }
  }

  /** Balanced picks all lie in the current group. */
  lemma {:induction false} BalancedInGroup(load: seq<nat>, picks: seq<nat>, c: nat, g: nat, v: nat)
    requires InRange(picks, |load|) && Balanced(load, picks, c, g, v)
    ensures forall k :: 0 <= k < |picks| ==> c <= picks[k] < c + g
    decreases |picks|
  {
    if |picks| > 0 {
      var k := |picks| - 1;
      BalancedInGroup(load, picks[..k], c, g, v);
      assert forall j :: 0 <= j < k ==> picks[..k][j] == picks[j];
    }
  }

  /**
   * What one prediction's batch of commands did to the queues: the commands
   * were logged in order, each went to the least-loaded queue of the current
   * group (Dispatched), every queue only grew, and the total load rose by one
   * load per command.
   */
  ghost predicate SentOut(q0: seq<seq<Entry>>, l0: seq<nat>, i0: seq<McCmd>,
                          q1: seq<seq<Entry>>, l1: seq<nat>, i1: seq<McCmd>,
                          n: nat, picks: seq<nat>, cmds: seq<McCmd>, c: nat, g: nat, v: nat)
  {
    n <= |l0| && n <= |l1| && i1 == i0 + cmds &&
    Sum(l1[..n]) == Sum(l0[..n]) + v * |cmds| &&
    Grows(q0, q1) && InRange(picks, n) &&
    Dispatched(q0, l0, q1, l1, picks, cmds, c, g, v)
  }

  /** offset_depth_adj: offsets scale with the bit depth unless high-precision offsets are on. */
  function OffsetDepthAdj(adj: DepthAdj, wt: int): int
    requires adj.bitDepth >= 8
  {
    if adj.highPrecisionOffsets then wt else wt * Pow2(adj.bitDepth - 8)
  }

  /** my_mx = (my << 8) | mx: the quarter-sample phases of a luma vector. */
  function LumaFrac(mv: Mv): nat
  {
    (mv.y % 4) * 256 + mv.x % 4
  }

  /** The luma phase is zero exactly when both components are whole samples. */
  lemma LumaFracZero(mv: Mv)
    ensures LumaFrac(mv) < Half
    ensures LumaFrac(mv) == 0 <==> mv.x % 4 == 0 && mv.y % 4 == 0
  {
  }

  /** rpi_pred_y's PU inputs on the filtered path. */
  function PxxPred(x0: int, y0: int, nPbH: nat, mv: Mv, wo: nat, dstAddr: int, xshl: nat,
                   srcBase: int, dummyBase: int): Pred
  {
    var f := LumaFrac(mv);
    LumaPxx(x0 + mv.x / 4 - 3, y0 + mv.y / 4 - 3, nPbH, f * Half + f, wo, dstAddr, xshl, srcBase, dummyBase)
  }

  /**
   * The previous 8-wide command after absorbing this PU's first 8 columns: it
   * grows by bw, reads its second half from this PU's source, keeps its own
   * phase in the low half of mymx21 and takes this PU's in the high half.
   */
  function Merged(c: McCmd, bw: nat, src: Src, frac: nat, wo: nat): (m: McCmd)
    requires |c.frac| == 1 && |c.weights| == 2
    ensures m.fn == c.fn && m.h == c.h && m.dst == c.dst && m.src1 == c.src1
    ensures m.w == c.w + bw && m.src2 == Some(src)
    ensures |m.frac| == 1 && m.frac[0] % Half == c.frac[0] % Half && m.frac[0] / Half == frac % Half
    ensures |m.weights| == 2 && m.weights[0] == c.weights[0] && m.weights[1] == wo
  {
    c.(w := c.w + bw, src2 := Some(src), frac := [Pack2(frac, c.frac[0])], weights := [c.weights[0], wo])
  }

  /** The merge condition of rpi_pred_y: same height and immediately to the left. */
  predicate CanMerge(env: InterPredEnv, lastY8: Option<CmdRef>, nPbH: nat, dstAddr: int)
    reads env, env.queue
  {
    lastY8.Some? && Y8Ref(env, lastY8.value) &&
    CmdAt(env, lastY8.value).h == nPbH && CmdAt(env, lastY8.value).dst + 8 == dstAddr
  }

  /** The in-place rewrite of the command last_y8_p points at; its size does not change. */
  method MergeY8(env: InterPredEnv, r: CmdRef, bw: nat, src: Src, frac: nat, wo: nat)
    requires env.Valid() && env.Ready() && Y8Ref(env, r)
    modifies env.queue
    ensures env.Valid() && env.Ready()
    ensures env.queue[..] == old(env.queue[..])[r.q := old(env.queue[r.q])[r.pos := Cmd(Merged(old(CmdAt(env, r)), bw, src, frac, wo))]]
  {
    var m := Cmd(Merged(CmdAt(env, r), bw, src, frac, wo));
    BytesReplace(env.queue[r.q], r.pos, m, env.layout);
    env.queue[r.q] := env.queue[r.q][r.pos := m];
  }

  /**
   * rpi_pred_y: whole-sample vectors go out as 16-wide copy commands; otherwise
   * the first up-to-8 columns may merge into the previous 8-wide command and
   * the rest go out as 16-wide filtered commands, the last of which is
   * remembered for merging when it is exactly 8 wide.
   */
  method PredY(env: InterPredEnv, lastY8: Option<CmdRef>, x0: int, y0: int, nPbW: nat, nPbH: nat,
               mv: Mv, weightMul: int, weightOffset: int, adj: DepthAdj,
               srcBase: int, dstAddr: int, xshl: nat, dummyBase: int)
    returns (y8: Option<CmdRef>, ghost picks: seq<nat>)
    requires env.Valid() && env.Ready() && adj.bitDepth >= 8
    requires lastY8.Some? ==> Y8Ref(env, lastY8.value)
    modifies env, env.load, env.fill, env.queue
    ensures env.Valid() && env.Ready() && env.curr == old(env.curr)
    ensures env.n == old(env.n) && env.used == old(env.used) && env.maxFill == old(env.maxFill)
    ensures var start := if old(CanMerge(env, lastY8, nPbH, dstAddr)) && LumaFrac(mv) != 0 then Min(nPbW, 8) else 0;
            env.usedGrp == (old(env.usedGrp) || |Chunks(nPbW, 16, start)| > 0)
    ensures y8.Some? ==> Y8Ref(env, y8.value)
    ensures var wo := Pack2(OffsetDepthAdj(adj, weightOffset) * 2 + 1, weightMul);
            var p := LumaP00(x0 + mv.x / 4, y0 + mv.y / 4, nPbH, wo, dstAddr, xshl, srcBase);
            LumaFrac(mv) == 0 ==>
              y8 == lastY8 &&
              SentOut(old(env.queue[..]), old(env.load[..]), old(env.issued),
                      env.queue[..], env.load[..], env.issued,
                      env.n, picks, Cmds(p, Chunks(nPbW, 16, 0)), env.curr, env.nGrp, LoadVal(p))
    ensures var wo := Pack2(OffsetDepthAdj(adj, weightOffset) * 2 + 1, weightMul);
            var p := PxxPred(x0, y0, nPbH, mv, wo, dstAddr, xshl, srcBase, dummyBase);
            var merge := old(CanMerge(env, lastY8, nPbH, dstAddr));
            var start := if merge then Min(nPbW, 8) else 0;
            var cs := Chunks(nPbW, 16, start);
            LumaFrac(mv) != 0 ==>
              (merge ==>
                 var r := lastY8.value;
                 r.q < env.queue.Length && r.pos < |env.queue[r.q]| && r.pos < |old(env.queue[r.q])| &&
                 env.queue[r.q][r.pos] == Cmd(Merged(old(CmdAt(env, r)), start, Src(p.x1, p.y1, srcBase), p.frac, wo)) &&
                 env.queue[r.q][r.pos].cmd.w <= 16) &&
              (if |cs| > 0 && cs[|cs| - 1].w == 8 then
                 y8.Some? && env.queue[y8.value.q][y8.value.pos] == Cmd(ChunkCmd(p, cs[|cs| - 1]))
               else y8 == if merge then None else lastY8) &&
              SentOut(if merge then
                        var r := lastY8.value;
                        old(env.queue[..])[r.q := old(env.queue[r.q])[r.pos :=
                          Cmd(Merged(old(CmdAt(env, r)), start, Src(p.x1, p.y1, srcBase), p.frac, wo))]]
                      else old(env.queue[..]),
                      old(env.load[..]), old(env.issued), env.queue[..], env.load[..], env.issued,
                      env.n, picks, Cmds(p, cs), env.curr, env.nGrp, LoadVal(p))
  {
    var wo := Pack2(OffsetDepthAdj(adj, weightOffset) * 2 + 1, weightMul);
    if LumaFrac(mv) == 0 {
      var p := LumaP00(x0 + mv.x / 4, y0 + mv.y / 4, nPbH, wo, dstAddr, xshl, srcBase);
      picks := PredYCopy(env, lastY8, p, nPbW);
      y8 := lastY8;
    } else {
      var p := PxxPred(x0, y0, nPbH, mv, wo, dstAddr, xshl, srcBase, dummyBase);
      if CanMerge(env, lastY8, nPbH, dstAddr) {
        y8, picks := PredYMerge(env, lastY8.value, p, nPbW, wo, srcBase);
      } else {
        y8, picks := PredYPlain(env, lastY8, p, nPbW);
      }
    }
  }

  /**
   * The whole-sample half of rpi_pred_y: 16-wide copy commands, none of which
   * is remembered for merging, so the previous 8-wide command stays mergeable.
   */
  method PredYCopy(env: InterPredEnv, lastY8: Option<CmdRef>, p: Pred, nPbW: nat)
    returns (ghost picks: seq<nat>)
    requires env.Valid() && env.Ready() && p.LumaP00?
    requires lastY8.Some? ==> Y8Ref(env, lastY8.value)
    modifies env, env.load, env.fill, env.queue
    ensures env.Valid() && env.Ready() && env.curr == old(env.curr)
    ensures env.n == old(env.n) && env.used == old(env.used) && env.maxFill == old(env.maxFill)
    ensures env.usedGrp == (old(env.usedGrp) || |Chunks(nPbW, 16, 0)| > 0)
    ensures lastY8.Some? ==> Y8Ref(env, lastY8.value)
    ensures SentOut(old(env.queue[..]), old(env.load[..]), old(env.issued),
                    env.queue[..], env.load[..], env.issued,
                    env.n, picks, Cmds(p, Chunks(nPbW, 16, 0)), env.curr, env.nGrp, LoadVal(p))
  {
    var cs := Chunks(nPbW, 16, 0);
    CmdsShape(p, cs);
    var _, ps := IssueCmds(env, Cmds(p, cs), LoadVal(p));
    if lastY8.Some? {
      EntryKept(old(env.queue[..]), env.queue[..], lastY8.value);
    }
    picks := ps;
  }

  /**
   * The sub-sample half of rpi_pred_y when the first up-to-8 columns join the
   * previous 8-wide command: that command is rewritten in place and the rest
   * go out as 16-wide commands.
   */
  method PredYMerge(env: InterPredEnv, r: CmdRef, p: Pred, nPbW: nat, wo: nat, srcBase: int)
    returns (y8: Option<CmdRef>, ghost picks: seq<nat>)
    requires env.Valid() && env.Ready() && p.LumaPxx? && Y8Ref(env, r)
    modifies env, env.load, env.fill, env.queue
    ensures env.Valid() && env.Ready() && env.curr == old(env.curr)
    ensures env.n == old(env.n) && env.used == old(env.used) && env.maxFill == old(env.maxFill)
    ensures env.usedGrp == (old(env.usedGrp) || |Chunks(nPbW, 16, Min(nPbW, 8))| > 0)
    ensures y8.Some? ==> Y8Ref(env, y8.value)
    ensures var cs := Chunks(nPbW, 16, Min(nPbW, 8));
            if |cs| > 0 && cs[|cs| - 1].w == 8 then
              y8.Some? && env.queue[y8.value.q][y8.value.pos] == Cmd(ChunkCmd(p, cs[|cs| - 1]))
            else y8 == None
    ensures r.q < env.queue.Length && r.pos < |env.queue[r.q]| && r.pos < |old(env.queue[r.q])| &&
            env.queue[r.q][r.pos] == Cmd(Merged(old(CmdAt(env, r)), Min(nPbW, 8), Src(p.x1, p.y1, srcBase), p.frac, wo))
    ensures SentOut(old(env.queue[..])[r.q := old(env.queue[r.q])[r.pos :=
                      Cmd(Merged(old(CmdAt(env, r)), Min(nPbW, 8), Src(p.x1, p.y1, srcBase), p.frac, wo))]],
                    old(env.load[..]), old(env.issued), env.queue[..], env.load[..], env.issued,
                    env.n, picks, Cmds(p, Chunks(nPbW, 16, Min(nPbW, 8))), env.curr, env.nGrp, LoadVal(p))
  {
    ghost var q0 := env.queue[..];
    var start := Min(nPbW, 8);
    MergeY8(env, r, start, Src(p.x1, p.y1, srcBase), p.frac, wo);
    ghost var q1 := env.queue[..];
    var cs := Chunks(nPbW, 16, start);
    LastW8IsFinal(p, nPbW, start);
    CmdsShape(p, cs);
    y8, picks := IssueCmds(env, Cmds(p, cs), LoadVal(p));
    MergedEntryKept(q0, q1, env.queue[..], r, Cmd(Merged(old(CmdAt(env, r)), start, Src(p.x1, p.y1, srcBase), p.frac, wo)));
  }

  /** An entry rewritten in place before its queue only grew is still there afterwards. */
  lemma MergedEntryKept(q0: seq<seq<Entry>>, q1: seq<seq<Entry>>, q2: seq<seq<Entry>>, r: CmdRef, m: Entry)
    requires r.q < |q0| && r.pos < |q0[r.q]| && Grows(q1, q2)
    requires q1 == q0[r.q := q0[r.q][r.pos := m]]
    ensures r.q < |q2| && r.pos < |q2[r.q]| && q2[r.q][r.pos] == m
    ensures Grows(q0[r.q := q0[r.q][r.pos := q2[r.q][r.pos]]], q2)
  {
    assert q1[r.q] <= q2[r.q];
  }

  /** The sub-sample half of rpi_pred_y with no merge: every column goes out as 16-wide commands. */
  method PredYPlain(env: InterPredEnv, lastY8: Option<CmdRef>, p: Pred, nPbW: nat)
    returns (y8: Option<CmdRef>, ghost picks: seq<nat>)
    requires env.Valid() && env.Ready() && p.LumaPxx?
    requires lastY8.Some? ==> Y8Ref(env, lastY8.value)
    modifies env, env.load, env.fill, env.queue
    ensures env.Valid() && env.Ready() && env.curr == old(env.curr)
    ensures env.n == old(env.n) && env.used == old(env.used) && env.maxFill == old(env.maxFill)
    ensures env.usedGrp == (old(env.usedGrp) || |Chunks(nPbW, 16, 0)| > 0)
    ensures y8.Some? ==> Y8Ref(env, y8.value)
    ensures var cs := Chunks(nPbW, 16, 0);
            if |cs| > 0 && cs[|cs| - 1].w == 8 then
              y8.Some? && env.queue[y8.value.q][y8.value.pos] == Cmd(ChunkCmd(p, cs[|cs| - 1]))
            else y8 == lastY8
    ensures SentOut(old(env.queue[..]), old(env.load[..]), old(env.issued),
                    env.queue[..], env.load[..], env.issued,
                    env.n, picks, Cmds(p, Chunks(nPbW, 16, 0)), env.curr, env.nGrp, LoadVal(p))
  {
    var cs := Chunks(nPbW, 16, 0);
    LastW8IsFinal(p, nPbW, 0);
    CmdsShape(p, cs);
    var last;
    last, picks := IssueCmds(env, Cmds(p, cs), LoadVal(p));
    if last.Some? {
      PxxCmdIsY8(p, cs[|cs| - 1]);
      y8 := last;
    } else {
      if lastY8.Some? {
        EntryKept(old(env.queue[..]), env.queue[..], lastY8.value);
      }
      y8 := lastY8;
    }
  }

  /** An 8-wide chunk of a filtered mono-prediction gives a command last_y8_p can point at. */
  lemma PxxCmdIsY8(p: Pred, c: Chunk)
    requires p.LumaPxx? && c.w == 8
    ensures var m := ChunkCmd(p, c); m.fn == YPxx && m.w == 8 && |m.frac| == 1 && |m.weights| == 2
  {
  }

  /** An entry keeps its place and value while the queues only grow. */
  lemma EntryKept(a: seq<seq<Entry>>, b: seq<seq<Entry>>, r: CmdRef)
    requires Grows(a, b) && r.q < |a| && r.pos < |a[r.q]|
    ensures r.q < |b| && r.pos < |b[r.q]| && b[r.q][r.pos] == a[r.q][r.pos]
  {
    assert a[r.q] <= b[r.q];
  }

  /** rpi_pred_y_b's PU inputs: a zero phase on both vectors needs no filter run-up. */
  function BPred(x0: int, y0: int, nPbH: nat, mv1: Mv, mv2: Mv, offsetSum: int, w1: int, w2: int,
                 adj: DepthAdj, base1: int, base2: int, dstAddr: int, xshl: nat): Pred
    requires adj.bitDepth >= 8
  {
    var frac := LumaFrac(mv2) * Half + LumaFrac(mv1);
    var zero := frac == 0;
    var run := if zero then 0 else 3;
    var wtOffset := OffsetDepthAdj(adj, offsetSum) + 1;
    LumaB(zero, x0 + mv1.x / 4 - run, y0 + mv1.y / 4 - run, x0 + mv2.x / 4 - run, y0 + mv2.y / 4 - run,
          nPbH, frac, Pack2(wtOffset, w1), Pack2(wtOffset, w2), dstAddr, xshl, base1, base2)
  }

  /** The bi-prediction phase word is zero exactly when both vectors are whole-sample. */
  lemma BPredZero(x0: int, y0: int, nPbH: nat, mv1: Mv, mv2: Mv, offsetSum: int, w1: int, w2: int,
                  adj: DepthAdj, base1: int, base2: int, dstAddr: int, xshl: nat)
    requires adj.bitDepth >= 8
    ensures var p := BPred(x0, y0, nPbH, mv1, mv2, offsetSum, w1, w2, adj, base1, base2, dstAddr, xshl);
      p.zero <==> LumaFrac(mv1) == 0 && LumaFrac(mv2) == 0
  {
    LumaFracZero(mv1);
    LumaFracZero(mv2);
  }

  /** rpi_pred_y_b: one command per chunk, 16 wide without filtering, 8 wide with it. */
  method PredYB(env: InterPredEnv, x0: int, y0: int, nPbW: nat, nPbH: nat, mv1: Mv, mv2: Mv,
                offsetSum: int, w1: int, w2: int, adj: DepthAdj, base1: int, base2: int,
                dstAddr: int, xshl: nat)
    returns (ghost picks: seq<nat>)
    requires env.Valid() && env.Ready() && adj.bitDepth >= 8
    modifies env, env.load, env.fill, env.queue
    ensures env.Valid() && env.Ready() && env.curr == old(env.curr)
    ensures env.n == old(env.n) && env.used == old(env.used) && env.maxFill == old(env.maxFill)
    ensures var p := BPred(x0, y0, nPbH, mv1, mv2, offsetSum, w1, w2, adj, base1, base2, dstAddr, xshl);
            env.usedGrp == (old(env.usedGrp) || |Chunks(nPbW, Step(p), 0)| > 0)
    ensures var p := BPred(x0, y0, nPbH, mv1, mv2, offsetSum, w1, w2, adj, base1, base2, dstAddr, xshl);
            var cs := Chunks(nPbW, Step(p), 0);
            env.issued == old(env.issued) + Cmds(p, cs) &&
            Sum(env.load[..env.n]) == old(Sum(env.load[..env.n])) + LoadVal(p) * |cs|
    ensures forall q :: 0 <= q < env.queue.Length ==> old(env.queue[q]) <= env.queue[q]
    ensures InRange(picks, env.n)
    ensures var p := BPred(x0, y0, nPbH, mv1, mv2, offsetSum, w1, w2, adj, base1, base2, dstAddr, xshl);
            Dispatched(old(env.queue[..]), old(env.load[..]), env.queue[..], env.load[..],
                       picks, Cmds(p, Chunks(nPbW, Step(p), 0)), env.curr, env.nGrp, LoadVal(p))
  {
    var p := BPred(x0, y0, nPbH, mv1, mv2, offsetSum, w1, w2, adj, base1, base2, dstAddr, xshl);
    var cs := Chunks(nPbW, Step(p), 0);
    CmdsShape(p, cs);
    var y8;
    y8, picks := IssueCmds(env, Cmds(p, cs), LoadVal(p));
  }

  /**
   * rpi_pred_c's PU inputs: the integer part of the eighth-sample chroma vector
   * less the one-sample run-up, and its phase, which selects the filter.
   */
  function CPred(lx: nat, x0c: int, y0c: int, nPbHc: nat, mv: Mv, cw: seq<int>, co: seq<int>,
                 adj: DepthAdj, base: int, dstAddr: int, xshl: nat): Pred
    requires |cw| == 2 && |co| == 2 && adj.bitDepth >= 8
  {
    ChromaP(lx, x0c + mv.x / 8 - 1, y0c + mv.y / 8 - 1, nPbHc, mv.x % 8, mv.y % 8,
            Pack2(OffsetDepthAdj(adj, co[0]) * 2 + 1, cw[0]),
            Pack2(OffsetDepthAdj(adj, co[1]) * 2 + 1, cw[1]),
            dstAddr, xshl, base)
  }

  /** The chroma source position and filter phase recombine to the vector. */
  lemma ChromaPhase(lx: nat, x0c: int, y0c: int, nPbHc: nat, mv: Mv, cw: seq<int>, co: seq<int>,
                    adj: DepthAdj, base: int, dstAddr: int, xshl: nat)
    requires |cw| == 2 && |co| == 2 && adj.bitDepth >= 8
    ensures var p := CPred(lx, x0c, y0c, nPbHc, mv, cw, co, adj, base, dstAddr, xshl);
      (p.x1 + 1 - x0c) * 8 + p.cx == mv.x && (p.y1 + 1 - y0c) * 8 + p.cy == mv.y &&
      p.cx < 8 && p.cy < 8
  {
  }

  /** rpi_pred_c: 8-wide chunks, each reading the list given by lx. */
  method PredC(env: InterPredEnv, lx: nat, x0c: int, y0c: int, nPbWc: nat, nPbHc: nat, mv: Mv,
               cw: seq<int>, co: seq<int>, adj: DepthAdj, base: int, dstAddr: int, xshl: nat)
    returns (ghost picks: seq<nat>)
    requires env.Valid() && env.Ready() && |cw| == 2 && |co| == 2 && adj.bitDepth >= 8
    modifies env, env.load, env.fill, env.queue
    ensures env.Valid() && env.Ready() && env.curr == old(env.curr)
    ensures env.n == old(env.n) && env.used == old(env.used) && env.maxFill == old(env.maxFill)
    ensures env.usedGrp == (old(env.usedGrp) || |Chunks(nPbWc, ChromaBlockWidth, 0)| > 0)
    ensures var p := CPred(lx, x0c, y0c, nPbHc, mv, cw, co, adj, base, dstAddr, xshl);
            var cs := Chunks(nPbWc, ChromaBlockWidth, 0);
            env.issued == old(env.issued) + Cmds(p, cs) &&
            Sum(env.load[..env.n]) == old(Sum(env.load[..env.n])) + LoadVal(p) * |cs|
    ensures forall q :: 0 <= q < env.queue.Length ==> old(env.queue[q]) <= env.queue[q]
    ensures InRange(picks, env.n)
    ensures var p := CPred(lx, x0c, y0c, nPbHc, mv, cw, co, adj, base, dstAddr, xshl);
            Dispatched(old(env.queue[..]), old(env.load[..]), env.queue[..], env.load[..],
                       picks, Cmds(p, Chunks(nPbWc, ChromaBlockWidth, 0)), env.curr, env.nGrp, LoadVal(p))
  {
    var p := CPred(lx, x0c, y0c, nPbHc, mv, cw, co, adj, base, dstAddr, xshl);
    var cs := Chunks(nPbWc, ChromaBlockWidth, 0);
    CmdsShape(p, cs);
    var y8;
    y8, picks := IssueCmds(env, Cmds(p, cs), LoadVal(p));
  }

  /** rpi_pred_c_b's PU inputs: both vectors' positions and phases and the combined weights. */
  function CBPred(x0c: int, y0c: int, nPbHc: nat, mv1: Mv, mv2: Mv, cw1: seq<int>, co1: seq<int>,
                  cw2: seq<int>, co2: seq<int>, adj: DepthAdj, base1: int, base2: int,
                  dstAddr: int, xshl: nat): Pred
    requires |cw1| == 2 && |co1| == 2 && |cw2| == 2 && |co2| == 2 && adj.bitDepth >= 8
  {
    ChromaB(x0c + mv1.x / 8 - 1, y0c + mv1.y / 8 - 1, x0c + mv2.x / 8 - 1, y0c + mv2.y / 8 - 1, nPbHc,
            [mv1.x % 8, mv1.y % 8, mv2.x % 8, mv2.y % 8],
            [cw1[0], cw1[1],
             Pack2(OffsetDepthAdj(adj, co1[0] + co2[0]) + 1, cw2[0]),
             Pack2(OffsetDepthAdj(adj, co1[1] + co2[1]) + 1, cw2[1])],
            dstAddr, xshl, base1, base2)
  }

  /** rpi_pred_c_b: 8-wide chunks with load bh * 2 + 3 each. */
  method PredCB(env: InterPredEnv, x0c: int, y0c: int, nPbWc: nat, nPbHc: nat, mv1: Mv, mv2: Mv,
                cw1: seq<int>, co1: seq<int>, cw2: seq<int>, co2: seq<int>, adj: DepthAdj,
                base1: int, base2: int, dstAddr: int, xshl: nat)
    returns (ghost picks: seq<nat>)
    requires env.Valid() && env.Ready() && adj.bitDepth >= 8
    requires |cw1| == 2 && |co1| == 2 && |cw2| == 2 && |co2| == 2
    modifies env, env.load, env.fill, env.queue
    ensures env.Valid() && env.Ready() && env.curr == old(env.curr)
    ensures env.n == old(env.n) && env.used == old(env.used) && env.maxFill == old(env.maxFill)
    ensures env.usedGrp == (old(env.usedGrp) || |Chunks(nPbWc, ChromaBlockWidth, 0)| > 0)
    ensures var p := CBPred(x0c, y0c, nPbHc, mv1, mv2, cw1, co1, cw2, co2, adj, base1, base2, dstAddr, xshl);
            var cs := Chunks(nPbWc, ChromaBlockWidth, 0);
            env.issued == old(env.issued) + Cmds(p, cs) &&
            Sum(env.load[..env.n]) == old(Sum(env.load[..env.n])) + LoadVal(p) * |cs|
    ensures forall q :: 0 <= q < env.queue.Length ==> old(env.queue[q]) <= env.queue[q]
    ensures InRange(picks, env.n)
    ensures var p := CBPred(x0c, y0c, nPbHc, mv1, mv2, cw1, co1, cw2, co2, adj, base1, base2, dstAddr, xshl);
            Dispatched(old(env.queue[..]), old(env.load[..]), env.queue[..], env.load[..],
                       picks, Cmds(p, Chunks(nPbWc, ChromaBlockWidth, 0)), env.curr, env.nGrp, LoadVal(p))
  {
    var p := CBPred(x0c, y0c, nPbHc, mv1, mv2, cw1, co1, cw2, co2, adj, base1, base2, dstAddr, xshl);
    var cs := Chunks(nPbWc, ChromaBlockWidth, 0);
    CmdsShape(p, cs);
    var y8;
    y8, picks := IssueCmds(env, Cmds(p, cs), LoadVal(p));
  }
}
