/**
 * Small syntax-element derivations of hevcdec.c (ITU-T H.265): the long-term
 * reference picture POCs of a slice header, the cross-component residual
 * scale, the coefficient scan order, the split_transform_flag inference, the
 * reference-progress row awaited before motion compensation, the packing of
 * the five neighbour-availability flags into an intra command, and the PCM
 * sample bit count.
 */
module Syntax {
  import opened Bits
  import opened Outcome

  // ---------------------------------------------------------------------
  // Long-term reference pictures (decode_lt_rps)
  // ---------------------------------------------------------------------

  /** The capacity of the long-term POC list of a slice. */
  const MaxLtRefs := 32

  /** The values read for one long-term entry. */
  datatype LtSyntax = LtSyntax(
    ltIdxSps: nat,
    pocLsbLt: int,
    usedByCurrPicLt: bool,
    msbPresent: bool,
    deltaPocMsbCycleLt: nat)

  datatype LtRef = LtRef(poc: int, used: bool)

  /** The SPS fields decode_lt_rps reads. */
  datatype LtSps = LtSps(
    present: bool,
    numLtSps: nat,
    ltPocLsbSps: seq<int>,
    usedByCurrPicLtSps: seq<bool>,
    log2MaxPocLsb: nat)

  predicate SpsOk(sps: LtSps)
  {
    |sps.ltPocLsbSps| == MaxLtRefs && |sps.usedByCurrPicLtSps| == MaxLtRefs
  }

  /** The SPS candidate an SPS-signalled entry uses: lt_idx_sps, or 0 when there is at most one. */
  function LtIdx(sps: LtSps, s: LtSyntax): nat
  {
    if sps.numLtSps > 1 then s.ltIdxSps else 0
  }

  /**
   * prev_delta_msb on entry to iteration i: the accumulated MSB cycle of the
   * last entry before i that carried one, or 0.
   */
  function PrevDeltaMsb(syn: seq<LtSyntax>, nbSps: nat, i: nat): int
    requires i <= |syn|
    decreases i, 0
  {
    if i == 0 then 0
    else if syn[i - 1].msbPresent then DeltaMsb(syn, nbSps, i - 1)
    else PrevDeltaMsb(syn, nbSps, i - 1)
  }

  /** The accumulated MSB cycle of entry i: restarted at the first entry of each of the two groups. */
  function DeltaMsb(syn: seq<LtSyntax>, nbSps: nat, i: nat): int
    requires i < |syn|
    decreases i, 1
  {
    syn[i].deltaPocMsbCycleLt + (if i != 0 && i != nbSps then PrevDeltaMsb(syn, nbSps, i) else 0)
  }

  /** The long-term entry i as decode_lt_rps stores it. */
  function LtEntry(sps: LtSps, syn: seq<LtSyntax>, nbSps: nat, i: nat, poc: int, pocLsb: int): LtRef
    requires SpsOk(sps) && i < |syn| && LtIdx(sps, syn[i]) < MaxLtRefs
  {
    var lsb := if i < nbSps then sps.ltPocLsbSps[LtIdx(sps, syn[i])] else syn[i].pocLsbLt;
    var used := if i < nbSps then sps.usedByCurrPicLtSps[LtIdx(sps, syn[i])] else syn[i].usedByCurrPicLt;
    if syn[i].msbPresent then
      LtRef(lsb + poc - DeltaMsb(syn, nbSps, i) * Pow2(sps.log2MaxPocLsb) - pocLsb, used)
    else LtRef(lsb, used)
  }

  predicate IdxOk(sps: LtSps, syn: seq<LtSyntax>)
  {
    forall i :: 0 <= i < |syn| ==> LtIdx(sps, syn[i]) < MaxLtRefs
  }

  /**
   * decode_lt_rps: no entries without long-term pictures in the SPS, an
   * error when the two counts together exceed the list, else one entry per
   * SPS-signalled and slice-signalled picture. syn holds what would be read
   * for each of the nb_sps + nb_sh entries.
   */
  method DecodeLtRps(sps: LtSps, nbSpsCoded: nat, nbSh: nat, syn: seq<LtSyntax>, poc: int, pocLsb: int)
    returns (r: Result<seq<LtRef>>)
    requires SpsOk(sps) && IdxOk(sps, syn)
    requires sps.present && nbSh + (if sps.numLtSps > 0 then nbSpsCoded else 0) <= MaxLtRefs ==>
      |syn| == nbSh + (if sps.numLtSps > 0 then nbSpsCoded else 0)
    ensures !sps.present ==> r == Ok([])
    ensures r.Err? <==> sps.present && nbSh + (if sps.numLtSps > 0 then nbSpsCoded else 0) > MaxLtRefs
    ensures r.Err? ==> r.error == InvalidData
    ensures sps.present && r.Ok? ==>
      var nbSps := if sps.numLtSps > 0 then nbSpsCoded else 0;
      |r.value| == nbSps + nbSh &&
      forall i :: 0 <= i < |r.value| ==> r.value[i] == LtEntry(sps, syn, nbSps, i, poc, pocLsb)
  {
    if !sps.present {
      return Ok([]);
    }
    var nbSps := if sps.numLtSps > 0 then nbSpsCoded else 0;
    if nbSh + nbSps > MaxLtRefs {
      return Err(InvalidData);
    }
    var maxPocLsb := Pow2(sps.log2MaxPocLsb);
    var n := nbSh + nbSps;
    var refs: seq<LtRef> := [];
    var prevDeltaMsb := 0;
    var i := 0;
    while i < n
      invariant 0 <= i <= n && |refs| == i
      invariant prevDeltaMsb == PrevDeltaMsb(syn, nbSps, i)
      invariant forall k :: 0 <= k < i ==> refs[k] == LtEntry(sps, syn, nbSps, k, poc, pocLsb)
    {
      var idx := LtIdx(sps, syn[i]);
      var lsb := if i < nbSps then sps.ltPocLsbSps[idx] else syn[i].pocLsbLt;
      var used := if i < nbSps then sps.usedByCurrPicLtSps[idx] else syn[i].usedByCurrPicLt;
      if syn[i].msbPresent {
        var delta := syn[i].deltaPocMsbCycleLt;
        if i != 0 && i != nbSps {
          delta := delta + prevDeltaMsb;
        }
        lsb := lsb + poc - delta * maxPocLsb - pocLsb;
        prevDeltaMsb := delta;
      }
      refs := refs + [LtRef(lsb, used)];
      i := i + 1;
    }
    return Ok(refs);
  }

  /**
   * DeltaPocMsbCycleLt as equation 7-52 of ITU-T H.265 defines it: the coded
   * value (0 when absent) plus the previous entry's, restarting at entry 0
   * and at entry num_long_term_sps.
   */
  function MsbCycle(syn: seq<LtSyntax>, nbSps: nat, i: nat): int
    requires i < |syn|
  {
    (if syn[i].msbPresent then syn[i].deltaPocMsbCycleLt else 0) +
    (if i == 0 || i == nbSps then 0 else MsbCycle(syn, nbSps, i - 1))
  }

  /**
   * The running prev_delta_msb agrees with equation 7-52 throughout the
   * SPS-signalled group, and throughout the slice-signalled group whenever
   * nothing is carried into it: its first entry has an MSB cycle or the SPS
   * group left none behind.
   */
  lemma {:induction false} PrevIsMsbCycle(syn: seq<LtSyntax>, nbSps: nat, i: nat)
    requires i < |syn|
    requires i < nbSps || (nbSps < |syn| && (syn[nbSps].msbPresent || PrevDeltaMsb(syn, nbSps, nbSps) == 0))
    ensures PrevDeltaMsb(syn, nbSps, i + 1) == MsbCycle(syn, nbSps, i)
    ensures syn[i].msbPresent ==> DeltaMsb(syn, nbSps, i) == MsbCycle(syn, nbSps, i)
  {
    if i == 0 || i == nbSps {
    } else {
      PrevIsMsbCycle(syn, nbSps, i - 1);
    }
  }

  // ---------------------------------------------------------------------
  // Cross-component prediction (hls_cross_component_pred)
  // ---------------------------------------------------------------------

  /**
   * ResScaleVal: 0 when log2_res_scale_abs_plus1 is 0, else a power of two
   * 1 << (v - 1) with the coded sign.
   */
  function ResScaleVal(log2ResScaleAbsPlus1: nat, signFlag: bool): (r: int)
    ensures log2ResScaleAbsPlus1 == 0 <==> r == 0
    ensures log2ResScaleAbsPlus1 > 0 ==>
      (if signFlag then r == -(Pow2(log2ResScaleAbsPlus1 - 1) as int) else r == Pow2(log2ResScaleAbsPlus1 - 1))
    ensures log2ResScaleAbsPlus1 <= 4 ==> r in {0, 1, 2, 4, 8, -1, -2, -4, -8}
  {
    if log2ResScaleAbsPlus1 != 0 then
      var p := Pow2(log2ResScaleAbsPlus1 - 1);
      assert log2ResScaleAbsPlus1 <= 4 ==> p in {1, 2, 4, 8} by {
        if log2ResScaleAbsPlus1 <= 4 {
          assert Pow2(0) == 1 && Pow2(1) == 2 && Pow2(2) == 4 && Pow2(3) == 8;
        }
      }
      p * (1 - 2 * (if signFlag then 1 else 0))
    else 0
  }

  // ---------------------------------------------------------------------
  // Scan order (hls_transform_unit)
  // ---------------------------------------------------------------------

  datatype ScanOrder = Diag | Horiz | Vert

  /**
   * scan_idx: for intra blocks of 4x4 or 8x8, near-horizontal prediction
   * modes 6..14 scan vertically and near-vertical modes 22..30 horizontally;
   * everything else scans diagonally.
   */
  function ScanIdx(isIntra: bool, log2TrafoSize: nat, mode: int): (s: ScanOrder)
    ensures s == Vert <==> isIntra && log2TrafoSize < 4 && 6 <= mode <= 14
    ensures s == Horiz <==> isIntra && log2TrafoSize < 4 && 22 <= mode <= 30
  {
    if isIntra && log2TrafoSize < 4 then
      if 6 <= mode <= 14 then Vert
      else if 22 <= mode <= 30 then Horiz
      else Diag
    else Diag
  }

  function Transposed(s: ScanOrder): ScanOrder
  {
    match s
    case Diag => Diag
    case Horiz => Vert
    case Vert => Horiz
  }

  /**
   * Transposing a block maps angular mode m to 36 - m; the scan order chosen
   * for the transposed mode is the transposed scan order.
   */
  lemma ScanIdxTransposes(isIntra: bool, log2TrafoSize: nat, mode: int)
    requires 2 <= mode <= 34
    ensures ScanIdx(isIntra, log2TrafoSize, 36 - mode) == Transposed(ScanIdx(isIntra, log2TrafoSize, mode))
  {
  }

  // ---------------------------------------------------------------------
  // split_transform_flag (hls_transform_tree)
  // ---------------------------------------------------------------------

  /** The SPS and CU fields the split decision depends on. */
  datatype SplitCtx = SplitCtx(
    log2MaxTrafoSize: nat,
    log2MinTbSize: nat,
    maxTrafoDepth: nat,
    intraSplit: bool,
    maxTransformHierarchyDepthInter: nat,
    isInter: bool,
    part2Nx2N: bool)

  /** Whether split_transform_flag is present in the bitstream at this node. */
  predicate SplitCoded(ctx: SplitCtx, log2TrafoSize: nat, trafoDepth: nat)
  {
    log2TrafoSize <= ctx.log2MaxTrafoSize && log2TrafoSize > ctx.log2MinTbSize &&
    trafoDepth < ctx.maxTrafoDepth && !(ctx.intraSplit && trafoDepth == 0)
  }

  /** interSplitFlag of section 7.4.9.8 of ITU-T H.265. */
  predicate InterSplit(ctx: SplitCtx, trafoDepth: nat)
  {
    ctx.maxTransformHierarchyDepthInter == 0 && ctx.isInter && !ctx.part2Nx2N && trafoDepth == 0
  }

  /**
   * split_transform_flag: the decoded flag where it is coded, otherwise
   * inferred to 1 for a block larger than the largest transform, for the
   * NxN intra split at depth 0 and for interSplitFlag, and to 0 otherwise.
   */
  function SplitTransformFlag(ctx: SplitCtx, log2TrafoSize: nat, trafoDepth: nat, decoded: bool): (r: bool)
    ensures SplitCoded(ctx, log2TrafoSize, trafoDepth) ==> r == decoded
    ensures log2TrafoSize > ctx.log2MaxTrafoSize ==> r
    ensures ctx.intraSplit && trafoDepth == 0 ==> r
    ensures !SplitCoded(ctx, log2TrafoSize, trafoDepth) ==>
      (r <==> log2TrafoSize > ctx.log2MaxTrafoSize || (ctx.intraSplit && trafoDepth == 0) || InterSplit(ctx, trafoDepth))
  {
    if SplitCoded(ctx, log2TrafoSize, trafoDepth) then decoded
    else log2TrafoSize > ctx.log2MaxTrafoSize || (ctx.intraSplit && trafoDepth == 0) || InterSplit(ctx, trafoDepth)
  }

  /**
   * The flag is decoded exactly inside the size and depth limits, so an
   * inferred split never happens at the minimum transform size unless the
   * block is also above the maximum size or forced by the NxN intra split
   * or interSplitFlag.
   */
  lemma NoInferredSplitAtMinimum(ctx: SplitCtx, log2TrafoSize: nat, trafoDepth: nat, decoded: bool)
    requires ctx.log2MinTbSize <= ctx.log2MaxTrafoSize
    requires log2TrafoSize <= ctx.log2MinTbSize
    requires !(ctx.intraSplit && trafoDepth == 0) && !InterSplit(ctx, trafoDepth)
    ensures !SplitTransformFlag(ctx, log2TrafoSize, trafoDepth, decoded)
  {
  }

  // ---------------------------------------------------------------------
  // Reference progress (hevc_await_progress)
  // ---------------------------------------------------------------------

  /**
   * The reference row awaited before predicting a block at row y0 of height
   * h from motion vector row mvY (quarter samples): the integer row of the
   * vector (mv.y >> 2, rounding down) past the block plus 9 rows of filter
   * margin, and never negative.
   */
  function ProgressReach(mvY: int, y0: int, h: int): (r: nat)
    ensures r >= mvY / 4 + y0 + h + 9
    ensures mvY / 4 + y0 + h + 9 >= 0 ==> r == mvY / 4 + y0 + h + 9
    ensures mvY / 4 + y0 + h + 9 < 0 ==> r == 0
  {
    if mvY / 4 + y0 + h + 9 > 0 then mvY / 4 + y0 + h + 9 else 0
  }

  /**
   * The awaited row lies beyond the last reference row the 8-tap luma filter
   * reads for the block (four below the integer position of its last row),
   * and moving the vector or the block down never waits for less.
   */
  lemma ProgressCoversFilter(mvY: int, y0: int, h: nat, mvY2: int, y02: int)
    requires h >= 1 && mvY <= mvY2 && y0 <= y02
    ensures mvY / 4 + y0 + (h - 1) + 4 < ProgressReach(mvY, y0, h)
    ensures ProgressReach(mvY, y0, h) <= ProgressReach(mvY2, y02, h)
  {
  }

  // ---------------------------------------------------------------------
  // Neighbour availability bits (rpi_intra_pred / the intra command replay)
  // ---------------------------------------------------------------------

  datatype NeighbourAvail = NeighbourAvail(bottomLeft: bool, left: bool, upLeft: bool, up: bool, upRight: bool)

  function Bit(b: bool): nat { if b then 1 else 0 }

  /** cmd->na: bottom-left in bit 4 down to up-right in bit 0. */
  function PackNa(a: NeighbourAvail): (na: nat)
    ensures na < 32
  {
    Bit(a.bottomLeft) * 16 + Bit(a.left) * 8 + Bit(a.upLeft) * 4 + Bit(a.up) * 2 + Bit(a.upRight)
  }

  /** (na >> k) & 1 for each of the five flags. */
  function UnpackNa(na: nat): NeighbourAvail
  {
    NeighbourAvail((na / 16) % 2 == 1, (na / 8) % 2 == 1, (na / 4) % 2 == 1, (na / 2) % 2 == 1, na % 2 == 1)
  }

  /** The flags replayed by pass1 are the flags pass0 recorded. */
  lemma NaRoundTrip(a: NeighbourAvail)
    ensures UnpackNa(PackNa(a)) == a
  {
  }

  /** Every five-bit value is the packing of its own flags. */
  lemma NaRoundTripBits(na: nat)
    requires na < 32
    ensures PackNa(UnpackNa(na)) == na
  {
  }

  // ---------------------------------------------------------------------
  // PCM sample bit count (hls_pcm_sample)
  // ---------------------------------------------------------------------

  /** Chroma subsampling of the SPS: hshift[1..2] and vshift[1..2]. */
  datatype ChromaShift = ChromaShift(chromaPresent: bool, hshift1: nat, vshift1: nat, hshift2: nat, vshift2: nat)

  predicate ShiftOk(cs: ChromaShift, log2CbSize: nat)
  {
    cs.hshift1 <= log2CbSize && cs.vshift1 <= log2CbSize && cs.hshift2 <= log2CbSize && cs.vshift2 <= log2CbSize
  }

  /**
   * The length in bits hls_pcm_sample skips, as written: each chroma plane
   * counted as a square of side cb_size >> vshift.
   */
  function PcmLengthAsWritten(bitDepth: nat, bitDepthChroma: nat, log2CbSize: nat, cs: ChromaShift): (r: nat)
    requires ShiftOk(cs, log2CbSize)
    ensures r == bitDepth * PlaneSamples(log2CbSize, 0, 0) +
      bitDepthChroma * PlaneSamples(log2CbSize, cs.vshift1, cs.vshift1) +
      bitDepthChroma * PlaneSamples(log2CbSize, cs.vshift2, cs.vshift2)
  {
    XyExp2(bitDepth, log2CbSize) +
    XyExp2(bitDepthChroma, log2CbSize - cs.vshift1) +
    XyExp2(bitDepthChroma, log2CbSize - cs.vshift2)
  }

  /** The number of samples of a plane of (2^L >> hs) x (2^L >> vs). */
  function PlaneSamples(log2CbSize: nat, hs: nat, vs: nat): nat
    requires hs <= log2CbSize && vs <= log2CbSize
  {
    Pow2(log2CbSize - hs) * Pow2(log2CbSize - vs)
  }

  /**
   * The length of pcm_sample() in section 7.3.8.7 of ITU-T H.265: the luma
   * samples at PcmBitDepthY bits, and, when there is chroma, the two chroma
   * planes of the coding block at PcmBitDepthC bits.
   */
  function PcmLength(bitDepth: nat, bitDepthChroma: nat, log2CbSize: nat, cs: ChromaShift): (r: nat)
    requires ShiftOk(cs, log2CbSize)
    ensures r == bitDepth * PlaneSamples(log2CbSize, 0, 0) +
      (if cs.chromaPresent
       then bitDepthChroma * (PlaneSamples(log2CbSize, cs.hshift1, cs.vshift1) + PlaneSamples(log2CbSize, cs.hshift2, cs.vshift2))
       else 0)
  {
    var c := if cs.chromaPresent
      then bitDepthChroma * (PlaneSamples(log2CbSize, cs.hshift1, cs.vshift1) + PlaneSamples(log2CbSize, cs.hshift2, cs.vshift2))
      else 0;
    bitDepth * PlaneSamples(log2CbSize, 0, 0) + c
  }

  /**
   * Where the chroma planes are square, as in 4:2:0 and 4:4:4, the formula as
   * written counts the same bits as the standard.
   */
  lemma PcmLengthAgreesWhenSquare(bitDepth: nat, bitDepthChroma: nat, log2CbSize: nat, cs: ChromaShift)
    requires ShiftOk(cs, log2CbSize) && cs.chromaPresent
    requires cs.hshift1 == cs.vshift1 && cs.hshift2 == cs.vshift2
    ensures PcmLengthAsWritten(bitDepth, bitDepthChroma, log2CbSize, cs) == PcmLength(bitDepth, bitDepthChroma, log2CbSize, cs)
  {
    assert PlaneSamples(log2CbSize, 0, 0) == Pow2(log2CbSize) * Pow2(log2CbSize);
  }

  /**
   * In 4:2:2 (hshift 1, vshift 0) an 8x8 PCM block with 8-bit samples is 1024
   * bits long, but the formula as written skips 1536: each chroma plane is
   * counted at full size.
   */
  lemma PcmLength422Counterexample()
    ensures PcmLengthAsWritten(8, 8, 3, ChromaShift(true, 1, 0, 1, 0)) == 1536
    ensures PcmLength(8, 8, 3, ChromaShift(true, 1, 0, 1, 0)) == 1024
  {
    assert Pow2(2) == 4 && Pow2(3) == 8 && Pow2(6) == 64;
  }

  /** (length + 7) >> 3: the whole bytes that hold length bits. */
  function PcmBytes(length: nat): (r: nat)
    ensures 8 * r >= length && 8 * r < length + 8
  {
    (length + 7) / 8
  }

  /**
   * ((blen + 31) & ~31) >> 1: the int16 coefficient slots reserved for blen
   * PCM bytes, rounded up to whole 32-byte lumps.
   */
  function PcmCoeffSlots(blen: nat): (r: nat)
    ensures 2 * r >= blen && 2 * r < blen + 32 && (2 * r) % 32 == 0
  {
    ((blen + 31) - (blen + 31) % 32) / 2
  }
}
