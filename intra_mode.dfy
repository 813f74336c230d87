/**
 * Intra prediction mode derivation (section 8.4.2 and 8.4.3 of ITU-T H.265)
 * as done by luma_intra_pred_mode and intra_prediction_unit in hevcdec.c:
 * the three most-probable-mode candidates, the remapping of
 * rem_intra_luma_pred_mode around them, the chroma mode lookup and the
 * writing of the chosen luma mode into the per-PU mode grid.
 */
module IntraMode {
  import opened Bits

  const Planar: int := 0
  const Dc: int := 1
  const Angular26: int := 26

  /** intra_chroma_table: the modes selected by intra_chroma_pred_mode 0..3. */
  const ChromaTable: seq<int> := [0, 26, 10, 1]

  /** tab_mode_idx: the 4:2:2 chroma mode conversion (Table 8-3). */
  const ModeIdx422: seq<int> :=
    [ 0,  1,  2,  2,  2,  2,  3,  5,  7,  8, 10, 12, 13, 15, 17, 18, 19, 20,
     21, 22, 23, 23, 24, 24, 25, 25, 26, 27, 27, 28, 28, 29, 29, 30, 31]

  predicate IsMode(m: int) { 0 <= m <= 34 }

  predicate AllModes(s: seq<int>) { forall k :: 0 <= k < |s| ==> IsMode(s[k]) }

  predicate StrictlySorted3(s: seq<int>)
  {
    |s| == 3 && s[0] < s[1] < s[2]
  }

  /**
   * The candidate list built from cand_left and cand_up: three distinct modes
   * that always include both neighbour modes.
   */
  function MpmCandidates(left: int, up: int): (c: seq<int>)
    requires IsMode(left) && IsMode(up)
    ensures |c| == 3
    ensures IsMode(c[0]) && IsMode(c[1]) && IsMode(c[2])
    ensures c[0] != c[1] && c[0] != c[2] && c[1] != c[2]
    ensures left in c && up in c
  {
    if left == up then
      if left < 2 then [Planar, Dc, Angular26]
      else [left, 2 + ((left - 2 - 1 + 32) % 32), 2 + ((left - 2 + 1) % 32)]
    else
      [left, up,
       if left != Planar && up != Planar then Planar
       else if left != Dc && up != Dc then Dc
       else Angular26]
  }

  /** The three conditional swaps that order the candidates before remapping. */
  function Sort3(c: seq<int>): (s: seq<int>)
    requires |c| == 3
    ensures |s| == 3 && s[0] <= s[1] <= s[2]
    ensures multiset{s[0], s[1], s[2]} == multiset{c[0], c[1], c[2]}
  {
    var (a0, a1, a2) := if c[0] > c[1] then (c[1], c[0], c[2]) else (c[0], c[1], c[2]);
    var (b0, b1, b2) := if a0 > a2 then (a2, a1, a0) else (a0, a1, a2);
    if b1 > b2 then [b0, b2, b1] else [b0, b1, b2]
  }

  /** The remap loop from position i on: each candidate not above the running mode bumps it. */
  function Remapped(s: seq<int>, m: int, i: nat): (r: int)
    requires i <= |s|
    ensures m <= r <= m + (|s| - i)
    decreases |s| - i
  {
    if i == |s| then m else Remapped(s, if m >= s[i] then m + 1 else m, i + 1)
  }

  /** The mode luma_intra_pred_mode derives from the two neighbour candidates and the syntax. */
  function LumaMode(left: int, up: int, prevFlag: bool, mpmIdx: nat, rem: int): int
    requires IsMode(left) && IsMode(up) && mpmIdx < 3
  {
    var c := MpmCandidates(left, up);
    if prevFlag then c[mpmIdx] else Remapped(Sort3(c), rem, 0)
  }

  lemma SortedDistinct(c: seq<int>)
    requires |c| == 3 && c[0] != c[1] && c[0] != c[2] && c[1] != c[2]
    ensures StrictlySorted3(Sort3(c))
    ensures forall m :: m in Sort3(c) <==> m in c
  {
    var s := Sort3(c);
    assert multiset{s[0], s[1], s[2]} == multiset{c[0], c[1], c[2]};
    forall m ensures m in s <==> m in c {
      assert m in s <==> m in multiset{s[0], s[1], s[2]};
      assert m in c <==> m in multiset{c[0], c[1], c[2]};
    }
  }

  lemma {:induction false} RemappedUnfold(s: seq<int>, m: int)
    requires |s| == 3
    ensures Remapped(s, m, 0) ==
      (var m1 := if m >= s[0] then m + 1 else m;
       var m2 := if m1 >= s[1] then m1 + 1 else m1;
       if m2 >= s[2] then m2 + 1 else m2)
  {
    var m1 := if m >= s[0] then m + 1 else m;
    var m2 := if m1 >= s[1] then m1 + 1 else m1;
    var m3 := if m2 >= s[2] then m2 + 1 else m2;
    assert Remapped(s, m2, 2) == Remapped(s, m3, 3) == m3;
    assert Remapped(s, m1, 1) == Remapped(s, m2, 2);
  }

  /**
   * With sorted, distinct candidates, every rem_intra_luma_pred_mode in 0..31
   * lands on a mode in 0..34 that is none of the candidates.
   */
  lemma RemapAvoidsCandidates(s: seq<int>, rem: int)
    requires StrictlySorted3(s) && IsMode(s[0]) && IsMode(s[2])
    requires 0 <= rem < 32
    ensures IsMode(Remapped(s, rem, 0))
    ensures Remapped(s, rem, 0) !in s
  {
    RemappedUnfold(s, rem);
  }

  /** The remap is strictly increasing in rem, so distinct rem values give distinct modes. */
  lemma {:induction false} RemapStrictlyIncreasing(s: seq<int>, a: int, b: int, i: nat)
    requires i <= |s|
    requires a < b
    ensures Remapped(s, a, i) < Remapped(s, b, i)
    decreases |s| - i
  {
    if i < |s| {
      RemapStrictlyIncreasing(s, if a >= s[i] then a + 1 else a, if b >= s[i] then b + 1 else b, i + 1);
    }
  }

  /** Every mode outside the candidates is the remap of some rem in 0..31. */
  lemma RemapReachesEveryOtherMode(s: seq<int>, m: int)
    requires StrictlySorted3(s) && IsMode(s[0]) && IsMode(s[2])
    requires IsMode(m) && m !in s
    ensures exists rem :: 0 <= rem < 32 && Remapped(s, rem, 0) == m
  {
    var below := (if s[0] < m then 1 else 0) + (if s[1] < m then 1 else 0) + (if s[2] < m then 1 else 0);
    var rem := m - below;
    RemappedUnfold(s, rem);
    assert Remapped(s, rem, 0) == m;
  }

  /** The remap loop of luma_intra_pred_mode over the sorted candidates. */
  method RemapRem(s: seq<int>, rem: int) returns (mode: int)
    requires |s| == 3
    ensures mode == Remapped(s, rem, 0)
  {
    mode := rem;
    var i := 0;
    while i < 3
      invariant 0 <= i <= 3
      invariant Remapped(s, mode, i) == Remapped(s, rem, 0)
    {
      if mode >= s[i] {
        mode := mode + 1;
      }
      i := i + 1;
    }
  }

  /**
   * The derived luma mode lies in 0..34; it is one of the candidates exactly
   * when prev_intra_luma_pred_flag is set, and otherwise rem raised by at
   * most one per candidate.
   */
  lemma LumaModeProperties(left: int, up: int, prevFlag: bool, mpmIdx: nat, rem: int)
    requires IsMode(left) && IsMode(up) && mpmIdx < 3 && 0 <= rem < 32
    ensures IsMode(LumaMode(left, up, prevFlag, mpmIdx, rem))
    ensures LumaMode(left, up, prevFlag, mpmIdx, rem) in MpmCandidates(left, up) <==> prevFlag
    ensures !prevFlag ==> rem <= LumaMode(left, up, prevFlag, mpmIdx, rem) <= rem + 3
  {
    var c := MpmCandidates(left, up);
    if !prevFlag {
      SortedDistinct(c);
      var s := Sort3(c);
      assert s[0] in c && s[2] in c;
      RemapAvoidsCandidates(s, rem);
      assert Remapped(s, rem, 0) !in c;
    }
  }

  /** cand_left: the stored mode of the PU to the left when it may be used, DC otherwise. */
  function LeftCandidate(ctbLeftFlag: bool, x0: nat, log2CtbSize: nat, stored: int): int
  {
    if ctbLeftFlag || ModUintp2(x0, log2CtbSize) != 0 then stored else Dc
  }

  /**
   * cand_up as written: read when ctb_up_flag is set or the PU is not on the
   * top row of its CTB, then forced to DC on the top row. The result never
   * depends on ctb_up_flag: the CTB row above is never used.
   */
  function UpCandidate(ctbUpFlag: bool, y0: nat, log2CtbSize: nat, stored: int): (c: int)
    ensures c == (if ModUintp2(y0, log2CtbSize) != 0 then stored else Dc)
  {
    var y0b := ModUintp2(y0, log2CtbSize);
    var c := if ctbUpFlag || y0b != 0 then stored else Dc;
    var yCtb := Shr(y0, log2CtbSize) * Pow2(log2CtbSize);
    ShrSplit(y0, log2CtbSize);
    if y0 - 1 < yCtb then Dc else c
  }

  /**
   * intra_pred_mode_c for 4:2:0 and 4:4:4: mode 4 takes the luma mode;
   * modes 0..3 take the table entry, or 34 when that equals the luma mode,
   * so the result never repeats the luma mode.
   */
  function ChromaMode(luma: int, chromaMode: nat): (m: int)
    requires IsMode(luma) && chromaMode <= 4
    ensures IsMode(m)
    ensures chromaMode == 4 ==> m == luma
    ensures chromaMode < 4 ==> m != luma && (m == 34 <==> luma == ChromaTable[chromaMode])
  {
    if chromaMode != 4 then
      (if luma == ChromaTable[chromaMode] then 34 else ChromaTable[chromaMode])
    else luma
  }

  /** intra_pred_mode_c for 4:2:2: the 4:2:0 derivation passed through tab_mode_idx. */
  function ChromaMode422(luma: int, chromaMode: nat): (m: int)
    requires IsMode(luma) && chromaMode <= 4
    ensures 0 <= m <= 31
    ensures chromaMode == 4 && luma < 2 ==> m == luma
  {
    ModeIdx422[ChromaMode(luma, chromaMode)]
  }

  /** tab_mode_idx keeps the angular order: it never decreases along the mode numbers. */
  lemma ModeIdx422Ordered(a: int, b: int)
    requires 0 <= a <= b <= 34
    ensures ModeIdx422[a] <= ModeIdx422[b]
  {
  }

  /** Syntax read for one prediction block: prev flag, mpm_idx and rem. */
  datatype PbSyntax = PbSyntax(prevFlag: bool, mpmIdx: nat, rem: int)

  predicate PbSyntaxValid(p: PbSyntax) { p.mpmIdx < 3 && 0 <= p.rem < 32 }

  /** A snapshot of tab_ipm: h rows of w valid modes. */
  predicate GridOk(g: seq<seq<int>>, h: nat, w: nat)
  {
    |g| == h && forall y :: 0 <= y < h ==> |g[y]| == w && forall x :: 0 <= x < w ==> IsMode(g[y][x])
  }

  /** The cell [y, x] lies in the square of side size at PU (xPu, yPu). */
  predicate InRect(xPu: nat, yPu: nat, size: nat, y: int, x: int)
  {
    yPu <= y < yPu + size && xPu <= x < xPu + size
  }

  /** Two snapshots of the same shape that agree cell by cell are equal. */
  lemma GridsEqual(a: seq<seq<int>>, b: seq<seq<int>>)
    requires |a| == |b|
    requires forall y :: 0 <= y < |a| ==> |a[y]| == |b[y]| && forall x :: 0 <= x < |a[y]| ==> a[y][x] == b[y][x]
    ensures a == b
  {
    forall y | 0 <= y < |a|
      ensures a[y] == b[y]
    {
      assert |a[y]| == |b[y]|;
    }
  }

  /**
   * The per-frame grids of minimum-size PUs: tab_ipm (luma intra mode) and
   * the intra flag of tab_mvf. Both are row-major tables in the source; here
   * each is a two-dimensional array indexed [y_pu, x_pu].
   */
  class PuGrid {
    const log2MinPuSize: nat
    const log2CtbSize: nat
    var ipm: array2<int>
    var intra: array2<bool>

    ghost predicate Valid()
      reads this, ipm
    {
      intra.Length0 == ipm.Length0 && intra.Length1 == ipm.Length1 &&
      log2MinPuSize <= log2CtbSize &&
      forall y, x :: 0 <= y < ipm.Length0 && 0 <= x < ipm.Length1 ==> IsMode(ipm[y, x])
    }

    /**
     * tab_ipm is allocated zeroed, so a new grid holds INTRA_PLANAR in every
     * cell; it is never cleared between frames. No cell starts marked intra.
     */
    constructor (widthPus: nat, heightPus: nat, log2MinPu: nat, log2Ctb: nat)
      requires log2MinPu <= log2Ctb
      ensures Valid() && fresh(ipm) && fresh(intra)
      ensures ipm.Length0 == heightPus && ipm.Length1 == widthPus
      ensures log2MinPuSize == log2MinPu && log2CtbSize == log2Ctb
      ensures forall y, x :: 0 <= y < heightPus && 0 <= x < widthPus ==> ipm[y, x] == Planar && !intra[y, x]
    {
      log2MinPuSize := log2MinPu;
      log2CtbSize := log2Ctb;
      ipm := new int[heightPus, widthPus]((y, x) => Planar);
      intra := new bool[heightPus, widthPus]((y, x) => false);
    }

    /** The current contents of tab_ipm as a value. */
    function Grid(): (g: seq<seq<int>>)
      reads this, ipm
      ensures |g| == ipm.Length0
      ensures forall y :: 0 <= y < ipm.Length0 ==>
        |g[y]| == ipm.Length1 && forall x :: 0 <= x < ipm.Length1 ==> g[y][x] == ipm[y, x]
    {
      var a := ipm;
      seq(a.Length0, y requires 0 <= y < a.Length0 reads a =>
        seq(a.Length1, x requires 0 <= x < a.Length1 reads a => a[y, x]))
    }

    /** Number of minimum PUs along one side of a PU of puSize samples (at least one). */
    function SizeInPus(puSize: nat): nat
    {
      if Shr(puSize, log2MinPuSize) == 0 then 1 else Shr(puSize, log2MinPuSize)
    }

    /**
     * In a grid of h by w PUs, the neighbour PUs that luma_intra_pred_mode
     * may read exist, and the block itself fits.
     */
    predicate Fits(h: nat, w: nat, x0: nat, y0: nat, puSize: nat, ctbLeftFlag: bool, ctbUpFlag: bool)
    {
      var xPu := Shr(x0, log2MinPuSize);
      var yPu := Shr(y0, log2MinPuSize);
      ((ctbLeftFlag || ModUintp2(x0, log2CtbSize) != 0) ==> xPu >= 1) &&
      ((ctbUpFlag || ModUintp2(y0, log2CtbSize) != 0) ==> yPu >= 1) &&
      xPu + SizeInPus(puSize) <= w && yPu + SizeInPus(puSize) <= h
    }

    /** The PU at (x0, y0) can be predicted in this grid. */
    predicate CanPredict(x0: nat, y0: nat, puSize: nat, ctbLeftFlag: bool, ctbUpFlag: bool)
      reads this
    {
      Fits(ipm.Length0, ipm.Length1, x0, y0, puSize, ctbLeftFlag, ctbUpFlag)
    }

    /** The mode stored for the PU above (x0, y0), read when cand_up may use it. */
    function StoredUp(x0: nat, y0: nat, ctbUpFlag: bool): (m: int)
      reads this, ipm
      requires Valid()
      requires (ctbUpFlag || ModUintp2(y0, log2CtbSize) != 0) ==> Shr(y0, log2MinPuSize) >= 1
      requires Shr(x0, log2MinPuSize) < ipm.Length1 && Shr(y0, log2MinPuSize) < ipm.Length0
      ensures IsMode(m)
    {
      if ctbUpFlag || ModUintp2(y0, log2CtbSize) != 0 then
        ipm[Shr(y0, log2MinPuSize) - 1, Shr(x0, log2MinPuSize)]
      else Dc
    }

    /** The mode stored for the PU left of (x0, y0), read when cand_left may use it. */
    function StoredLeft(x0: nat, y0: nat, ctbLeftFlag: bool): (m: int)
      reads this, ipm
      requires Valid()
      requires (ctbLeftFlag || ModUintp2(x0, log2CtbSize) != 0) ==> Shr(x0, log2MinPuSize) >= 1
      requires Shr(x0, log2MinPuSize) < ipm.Length1 && Shr(y0, log2MinPuSize) < ipm.Length0
      ensures IsMode(m)
    {
      if ctbLeftFlag || ModUintp2(x0, log2CtbSize) != 0 then
        ipm[Shr(y0, log2MinPuSize), Shr(x0, log2MinPuSize) - 1]
      else Dc
    }

    /** In snapshot g, the mode of the PU above (x0, y0) when cand_up may read it, else INTRA_DC. */
    function UpOn(g: seq<seq<int>>, h: nat, w: nat, x0: nat, y0: nat, ctbUpFlag: bool): (m: int)
      requires GridOk(g, h, w)
      requires (ctbUpFlag || ModUintp2(y0, log2CtbSize) != 0) ==> Shr(y0, log2MinPuSize) >= 1
      requires Shr(x0, log2MinPuSize) < w && Shr(y0, log2MinPuSize) < h
      ensures IsMode(m)
    {
      if ctbUpFlag || ModUintp2(y0, log2CtbSize) != 0 then g[Shr(y0, log2MinPuSize) - 1][Shr(x0, log2MinPuSize)]
      else Dc
    }

    /** In snapshot g, the mode of the PU left of (x0, y0) when cand_left may read it, else INTRA_DC. */
    function LeftOn(g: seq<seq<int>>, h: nat, w: nat, x0: nat, y0: nat, ctbLeftFlag: bool): (m: int)
      requires GridOk(g, h, w)
      requires (ctbLeftFlag || ModUintp2(x0, log2CtbSize) != 0) ==> Shr(x0, log2MinPuSize) >= 1
      requires Shr(x0, log2MinPuSize) < w && Shr(y0, log2MinPuSize) < h
      ensures IsMode(m)
    {
      if ctbLeftFlag || ModUintp2(x0, log2CtbSize) != 0 then g[Shr(y0, log2MinPuSize)][Shr(x0, log2MinPuSize) - 1]
      else Dc
    }

    /**
     * The mode luma_intra_pred_mode derives for the PU at (x0, y0) when
     * tab_ipm holds the snapshot g: the candidates come from g's cells left
     * of and above the PU.
     */
    function ModeOn(g: seq<seq<int>>, h: nat, w: nat, x0: nat, y0: nat, puSize: nat,
                    ctbLeftFlag: bool, ctbUpFlag: bool, syn: PbSyntax): (m: int)
      requires GridOk(g, h, w) && PbSyntaxValid(syn)
      requires Fits(h, w, x0, y0, puSize, ctbLeftFlag, ctbUpFlag)
      ensures IsMode(m)
    {
      var left := LeftCandidate(ctbLeftFlag, x0, log2CtbSize, LeftOn(g, h, w, x0, y0, ctbLeftFlag));
      var up := UpCandidate(ctbUpFlag, y0, log2CtbSize, UpOn(g, h, w, x0, y0, ctbUpFlag));
      LumaModeProperties(left, up, syn.prevFlag, syn.mpmIdx, syn.rem);
      LumaMode(left, up, syn.prevFlag, syn.mpmIdx, syn.rem)
    }

    /** The mode luma_intra_pred_mode derives for the PU at (x0, y0) from the current grid. */
    function PredictedMode(x0: nat, y0: nat, puSize: nat, ctbLeftFlag: bool, ctbUpFlag: bool, syn: PbSyntax): int
      reads this, ipm
      requires Valid() && PbSyntaxValid(syn)
      requires CanPredict(x0, y0, puSize, ctbLeftFlag, ctbUpFlag)
    {
      LumaMode(LeftCandidate(ctbLeftFlag, x0, log2CtbSize, StoredLeft(x0, y0, ctbLeftFlag)),
               UpCandidate(ctbUpFlag, y0, log2CtbSize, StoredUp(x0, y0, ctbUpFlag)),
               syn.prevFlag, syn.mpmIdx, syn.rem)
    }

    /** A well-formed grid's snapshot holds valid modes. */
    lemma GridOfValid()
      requires Valid()
      ensures GridOk(Grid(), ipm.Length0, ipm.Length1)
    {
    }

    /** Deriving from the grid and from its snapshot gives the same mode. */
    lemma PredictedOnGrid(x0: nat, y0: nat, puSize: nat, ctbLeftFlag: bool, ctbUpFlag: bool, syn: PbSyntax)
      requires Valid() && PbSyntaxValid(syn) && CanPredict(x0, y0, puSize, ctbLeftFlag, ctbUpFlag)
      ensures GridOk(Grid(), ipm.Length0, ipm.Length1)
      ensures PredictedMode(x0, y0, puSize, ctbLeftFlag, ctbUpFlag, syn)
           == ModeOn(Grid(), ipm.Length0, ipm.Length1, x0, y0, puSize, ctbLeftFlag, ctbUpFlag, syn)
    {
      GridOfValid();
      assert LeftOn(Grid(), ipm.Length0, ipm.Length1, x0, y0, ctbLeftFlag) == StoredLeft(x0, y0, ctbLeftFlag);
      assert UpOn(Grid(), ipm.Length0, ipm.Length1, x0, y0, ctbUpFlag) == StoredUp(x0, y0, ctbUpFlag);
    }

    /** The grid cell [y, x] lies under the PU of size puSize at (x0, y0). */
    predicate InBlock(x0: nat, y0: nat, puSize: nat, y: int, x: int)
    {
      InRect(Shr(x0, log2MinPuSize), Shr(y0, log2MinPuSize), SizeInPus(puSize), y, x)
    }

    /** The snapshot g with the square of side size at PU (xPu, yPu) painted with mode. */
    function PaintOn(g: seq<seq<int>>, xPu: nat, yPu: nat, size: nat, mode: int): (r: seq<seq<int>>)
      ensures |r| == |g|
      ensures forall y :: 0 <= y < |g| ==>
        |r[y]| == |g[y]| &&
        forall x :: 0 <= x < |g[y]| ==> r[y][x] == (if InRect(xPu, yPu, size, y, x) then mode else g[y][x])
    {
      seq(|g|, y requires 0 <= y < |g| =>
        seq(|g[y]|, x requires 0 <= x < |g[y]| => if InRect(xPu, yPu, size, y, x) then mode else g[y][x]))
    }

    /**
     * luma_intra_pred_mode: derives the mode, then writes it into every grid
     * cell the PU covers and marks those cells intra; nothing else changes.
     */
    method LumaIntraPredMode(x0: nat, y0: nat, puSize: nat, ctbLeftFlag: bool, ctbUpFlag: bool, syn: PbSyntax)
      returns (mode: int)
      requires Valid() && PbSyntaxValid(syn)
      requires CanPredict(x0, y0, puSize, ctbLeftFlag, ctbUpFlag)
      modifies ipm, intra
      ensures Valid()
      ensures mode == old(PredictedMode(x0, y0, puSize, ctbLeftFlag, ctbUpFlag, syn))
      ensures IsMode(mode)
      ensures Painted(Shr(x0, log2MinPuSize), Shr(y0, log2MinPuSize), SizeInPus(puSize), mode)
      ensures Grid() == PaintOn(old(Grid()), Shr(x0, log2MinPuSize), Shr(y0, log2MinPuSize), SizeInPus(puSize), mode)
    {
      mode := DeriveMode(x0, y0, puSize, ctbLeftFlag, ctbUpFlag, syn);
      FillPu(Shr(x0, log2MinPuSize), Shr(y0, log2MinPuSize), SizeInPus(puSize), mode);
    }

    /**
     * The derivation half of luma_intra_pred_mode: the candidates from the
     * neighbour PUs, then either the mpm_idx pick or the sorted remap loop.
     * The result lies in 0..34 and is a candidate exactly when the prev flag
     * is set.
     */
    method DeriveMode(x0: nat, y0: nat, puSize: nat, ctbLeftFlag: bool, ctbUpFlag: bool, syn: PbSyntax)
      returns (mode: int)
      requires Valid() && PbSyntaxValid(syn)
      requires CanPredict(x0, y0, puSize, ctbLeftFlag, ctbUpFlag)
      ensures mode == PredictedMode(x0, y0, puSize, ctbLeftFlag, ctbUpFlag, syn)
      ensures IsMode(mode)
      ensures mode in MpmCandidates(LeftCandidate(ctbLeftFlag, x0, log2CtbSize, StoredLeft(x0, y0, ctbLeftFlag)),
                                    UpCandidate(ctbUpFlag, y0, log2CtbSize, StoredUp(x0, y0, ctbUpFlag)))
              <==> syn.prevFlag
    {
      var xPu := Shr(x0, log2MinPuSize);
      var yPu := Shr(y0, log2MinPuSize);
      var x0b := ModUintp2(x0, log2CtbSize);
      var y0b := ModUintp2(y0, log2CtbSize);
      var candUp := if ctbUpFlag || y0b != 0 then ipm[yPu - 1, xPu] else Dc;
      var candLeft := if ctbLeftFlag || x0b != 0 then ipm[yPu, xPu - 1] else Dc;
      var yCtb := Shr(y0, log2CtbSize) * Pow2(log2CtbSize);
      ShrSplit(y0, log2CtbSize);
      if y0 - 1 < yCtb {
        candUp := Dc;
      }
      assert candLeft == LeftCandidate(ctbLeftFlag, x0, log2CtbSize, StoredLeft(x0, y0, ctbLeftFlag));
      assert candUp == UpCandidate(ctbUpFlag, y0, log2CtbSize, StoredUp(x0, y0, ctbUpFlag));
      var c := MpmCandidates(candLeft, candUp);
      if syn.prevFlag {
        mode := c[syn.mpmIdx];
      } else {
        var s := Sort3(c);
        mode := RemapRem(s, syn.rem);
        assert mode == Remapped(s, syn.rem, 0);
      }
      assert mode == LumaMode(candLeft, candUp, syn.prevFlag, syn.mpmIdx, syn.rem);
      LumaModeProperties(candLeft, candUp, syn.prevFlag, syn.mpmIdx, syn.rem);
    }

    /**
     * The memset loop of luma_intra_pred_mode: every cell of the square of
     * side `size` at (xPu, yPu) gets `mode` in tab_ipm and is marked intra.
     */
    method FillPu(xPu: nat, yPu: nat, size: nat, mode: int)
      requires Valid() && IsMode(mode)
      requires xPu + size <= ipm.Length1 && yPu + size <= ipm.Length0
      modifies ipm, intra
      ensures Valid()
      ensures Painted(xPu, yPu, size, mode)
      ensures Grid() == PaintOn(old(Grid()), xPu, yPu, size, mode)
    {
      ghost var g0 := Grid();
      var i := 0;
      while i < size
        invariant 0 <= i <= size
        invariant forall y, x :: 0 <= y < ipm.Length0 && 0 <= x < ipm.Length1 ==>
          ipm[y, x] == (if yPu <= y < yPu + i && xPu <= x < xPu + size then mode else old(ipm[y, x]))
        invariant forall y, x :: 0 <= y < intra.Length0 && 0 <= x < intra.Length1 ==>
          intra[y, x] == ((yPu <= y < yPu + size && xPu <= x < xPu + i) || old(intra[y, x]))
      {
        var j := 0;
        while j < size
          invariant 0 <= j <= size
          invariant forall y, x :: 0 <= y < ipm.Length0 && 0 <= x < ipm.Length1 ==>
            ipm[y, x] == (if (yPu <= y < yPu + i && xPu <= x < xPu + size) || (y == yPu + i && xPu <= x < xPu + j)
                          then mode else old(ipm[y, x]))
          invariant forall y, x :: 0 <= y < intra.Length0 && 0 <= x < intra.Length1 ==>
            intra[y, x] == ((yPu <= y < yPu + size && xPu <= x < xPu + i) || old(intra[y, x]))
        {
          ipm[yPu + i, xPu + j] := mode;
          j := j + 1;
        }
        j := 0;
        while j < size
          invariant 0 <= j <= size
          invariant forall y, x :: 0 <= y < intra.Length0 && 0 <= x < intra.Length1 ==>
            intra[y, x] == ((yPu <= y < yPu + size && xPu <= x < xPu + i) || (x == xPu + i && yPu <= y < yPu + j) || old(intra[y, x]))
          invariant forall y, x :: 0 <= y < ipm.Length0 && 0 <= x < ipm.Length1 ==>
            ipm[y, x] == (if yPu <= y < yPu + i + 1 && xPu <= x < xPu + size then mode else old(ipm[y, x]))
        {
          intra[yPu + j, xPu + i] := true;
          j := j + 1;
        }
        i := i + 1;
      }
      GridsEqual(Grid(), PaintOn(g0, xPu, yPu, size, mode));
    }


    /**
     * intra_prediction_unit_default_value, run for skipped, inter and PCM
     * CUs: the CU's square of tab_ipm takes INTRA_DC, so later neighbours
     * see DC there, and the square is marked intra only when the CU is
     * intra coded (the PCM case); every other cell keeps its value.
     */
    method DefaultValue(x0: nat, y0: nat, log2CbSize: nat, cuIntra: bool)
      requires Valid()
      requires Shr(x0, log2MinPuSize) + SizeInPus(Pow2(log2CbSize)) <= ipm.Length1
      requires Shr(y0, log2MinPuSize) + SizeInPus(Pow2(log2CbSize)) <= ipm.Length0
      modifies ipm, intra
      ensures Valid()
      ensures Grid() == PaintOn(old(Grid()), Shr(x0, log2MinPuSize), Shr(y0, log2MinPuSize),
                                SizeInPus(Pow2(log2CbSize)), Dc)
      ensures forall y, x :: 0 <= y < intra.Length0 && 0 <= x < intra.Length1 ==>
        intra[y, x] == ((cuIntra && InBlock(x0, y0, Pow2(log2CbSize), y, x)) || old(intra[y, x]))
    {
      ghost var g0 := Grid();
      var size := SizeInPus(Pow2(log2CbSize));
      var xPu := Shr(x0, log2MinPuSize);
      var yPu := Shr(y0, log2MinPuSize);
      FillModes(xPu, yPu, size, Dc);
      if cuIntra {
        MarkIntra(xPu, yPu, size);
      }
      GridsEqual(Grid(), PaintOn(g0, xPu, yPu, size, Dc));
    }

    /** The memset loop of the default value: the square's modes only. */
    method FillModes(xPu: nat, yPu: nat, size: nat, mode: int)
      requires Valid() && IsMode(mode)
      requires xPu + size <= ipm.Length1 && yPu + size <= ipm.Length0
      modifies ipm
      ensures Valid()
      ensures forall y, x :: 0 <= y < ipm.Length0 && 0 <= x < ipm.Length1 ==>
        ipm[y, x] == (if yPu <= y < yPu + size && xPu <= x < xPu + size then mode else old(ipm[y, x]))
    {
      var i := 0;
      while i < size
        invariant 0 <= i <= size && Valid()
        invariant forall y, x :: 0 <= y < ipm.Length0 && 0 <= x < ipm.Length1 ==>
          ipm[y, x] == (if yPu <= y < yPu + i && xPu <= x < xPu + size then mode else old(ipm[y, x]))
      {
        var j := 0;
        while j < size
          invariant 0 <= j <= size && Valid()
          invariant forall y, x :: 0 <= y < ipm.Length0 && 0 <= x < ipm.Length1 ==>
            ipm[y, x] == (if (yPu <= y < yPu + i && xPu <= x < xPu + size) || (y == yPu + i && xPu <= x < xPu + j)
                          then mode else old(ipm[y, x]))
        {
          ipm[yPu + i, xPu + j] := mode;
          j := j + 1;
        }
        i := i + 1;
      }
    }

    /** The PF_INTRA loop of the default value: the square's intra marks only. */
    method MarkIntra(xPu: nat, yPu: nat, size: nat)
      requires xPu + size <= intra.Length1 && yPu + size <= intra.Length0
      modifies intra
      ensures forall y, x :: 0 <= y < intra.Length0 && 0 <= x < intra.Length1 ==>
        intra[y, x] == ((yPu <= y < yPu + size && xPu <= x < xPu + size) || old(intra[y, x]))
    {
      var j := 0;
      while j < size
        invariant 0 <= j <= size
        invariant forall y, x :: 0 <= y < intra.Length0 && 0 <= x < intra.Length1 ==>
          intra[y, x] == ((yPu <= y < yPu + j && xPu <= x < xPu + size) || old(intra[y, x]))
      {
        var k := 0;
        while k < size
          invariant 0 <= k <= size
          invariant forall y, x :: 0 <= y < intra.Length0 && 0 <= x < intra.Length1 ==>
            intra[y, x] == ((yPu <= y < yPu + j && xPu <= x < xPu + size) || (y == yPu + j && xPu <= x < xPu + k)
                            || old(intra[y, x]))
        {
          intra[yPu + j, xPu + k] := true;
          k := k + 1;
        }
        j := j + 1;
      }
    }

    /** Side of one prediction block of the CU: halved for PART_NxN. */
    static function PbSize(log2CbSize: nat, partNxN: bool): nat
    {
      Shr(Pow2(log2CbSize), if partNxN then 1 else 0)
    }

    /** Column of prediction block k = 2·i + j of a CU at x0: x0 + pb_size·j. */
    static function BlockX(x0: nat, pb: nat, k: nat): nat
    {
      if k == 1 || k == 3 then x0 + pb else x0
    }

    /** Row of prediction block k = 2·i + j of a CU at y0: y0 + pb_size·i. */
    static function BlockY(y0: nat, pb: nat, k: nat): nat
    {
      if k >= 2 then y0 + pb else y0
    }

    /** In a grid of h by w PUs, the first n prediction blocks of the CU can be predicted. */
    predicate CuFits(h: nat, w: nat, x0: nat, y0: nat, pb: nat, ctbLeftFlag: bool, ctbUpFlag: bool, n: nat)
    {
      forall k :: 0 <= k < n ==> Fits(h, w, BlockX(x0, pb, k), BlockY(y0, pb, k), pb, ctbLeftFlag, ctbUpFlag)
    }

    /** Every prediction block of the CU at (x0, y0) can be predicted in the grid. */
    predicate CanPredictCu(x0: nat, y0: nat, log2CbSize: nat, partNxN: bool, ctbLeftFlag: bool, ctbUpFlag: bool)
      reads this
    {
      CuFits(ipm.Length0, ipm.Length1, x0, y0, PbSize(log2CbSize, partNxN), ctbLeftFlag, ctbUpFlag,
             if partNxN then 4 else 1)
    }

    /** The grid cell [y, x] lies under one of the first n prediction blocks of the CU. */
    predicate InCu(x0: nat, y0: nat, pb: nat, n: nat, y: int, x: int)
    {
      n > 0 && (InBlock(BlockX(x0, pb, n - 1), BlockY(y0, pb, n - 1), pb, y, x) || InCu(x0, y0, pb, n - 1, y, x))
    }

    /**
     * The snapshot g after the first |modes| prediction blocks of the CU, in
     * raster order, painted their modes: the luma half of
     * intra_prediction_unit leaves tab_ipm like this.
     */
    function CuGrid(g: seq<seq<int>>, h: nat, w: nat, x0: nat, y0: nat, pb: nat, modes: seq<int>)
      : (r: seq<seq<int>>)
      ensures GridOk(g, h, w) && (forall k :: 0 <= k < |modes| ==> IsMode(modes[k])) ==> GridOk(r, h, w)
      decreases |modes|
    {
      if |modes| == 0 then g
      else
        var k := |modes| - 1;
        PaintOn(CuGrid(g, h, w, x0, y0, pb, modes[..k]), Shr(BlockX(x0, pb, k), log2MinPuSize),
                Shr(BlockY(y0, pb, k), log2MinPuSize), SizeInPus(pb), modes[k])
    }

    /** Painting a valid mode keeps a snapshot's shape and validity. */
    lemma PaintKeepsModes(g: seq<seq<int>>, h: nat, w: nat, xPu: nat, yPu: nat, size: nat, mode: int)
      requires GridOk(g, h, w) && IsMode(mode)
      ensures GridOk(PaintOn(g, xPu, yPu, size, mode), h, w)
    {
    }

    /** What every use of the CU fold needs: a valid grid, blocks that fit, syntax in range. */
    predicate CuInputs(g: seq<seq<int>>, h: nat, w: nat, x0: nat, y0: nat, pb: nat,
                       ctbLeftFlag: bool, ctbUpFlag: bool, syn: seq<PbSyntax>)
    {
      GridOk(g, h, w) && CuFits(h, w, x0, y0, pb, ctbLeftFlag, ctbUpFlag, |syn|) &&
      forall k :: 0 <= k < |syn| ==> PbSyntaxValid(syn[k])
    }

    /**
     * The modes of the first |modes| prediction blocks, in raster order, are
     * what luma_intra_pred_mode derives for each from tab_ipm g as the
     * blocks before it left it: block 1 of a PART_NxN CU sees block 0's mode
     * on its left, block 2 sees it above.
     */
    predicate Derived(g: seq<seq<int>>, h: nat, w: nat, x0: nat, y0: nat, pb: nat,
                      ctbLeftFlag: bool, ctbUpFlag: bool, syn: seq<PbSyntax>, modes: seq<int>)
      requires CuInputs(g, h, w, x0, y0, pb, ctbLeftFlag, ctbUpFlag, syn) && |modes| <= |syn| && AllModes(modes)
      decreases |modes|
    {
      |modes| == 0 ||
      var k := |modes| - 1;
      (Derived(g, h, w, x0, y0, pb, ctbLeftFlag, ctbUpFlag, syn, modes[..k]) &&
       modes[k] == ModeOn(CuGrid(g, h, w, x0, y0, pb, modes[..k]), h, w, BlockX(x0, pb, k), BlockY(y0, pb, k), pb,
                          ctbLeftFlag, ctbUpFlag, syn[k]))
    }

    /**
     * One more block: deriving its mode from the grid the earlier blocks
     * left and painting it there extends both the derived modes and the
     * fold's grid.
     */
    lemma DerivedSnoc(g: seq<seq<int>>, h: nat, w: nat, x0: nat, y0: nat, pb: nat,
                      ctbLeftFlag: bool, ctbUpFlag: bool, syn: seq<PbSyntax>, modes: seq<int>, m: int,
                      after: seq<seq<int>>)
      requires CuInputs(g, h, w, x0, y0, pb, ctbLeftFlag, ctbUpFlag, syn) && |modes| < |syn| && AllModes(modes)
      requires Derived(g, h, w, x0, y0, pb, ctbLeftFlag, ctbUpFlag, syn, modes)
      requires m == ModeOn(CuGrid(g, h, w, x0, y0, pb, modes), h, w, BlockX(x0, pb, |modes|), BlockY(y0, pb, |modes|),
                           pb, ctbLeftFlag, ctbUpFlag, syn[|modes|])
      requires after == PaintOn(CuGrid(g, h, w, x0, y0, pb, modes), Shr(BlockX(x0, pb, |modes|), log2MinPuSize),
                                Shr(BlockY(y0, pb, |modes|), log2MinPuSize), SizeInPus(pb), m)
      ensures AllModes(modes + [m])
      ensures Derived(g, h, w, x0, y0, pb, ctbLeftFlag, ctbUpFlag, syn, modes + [m])
      ensures after == CuGrid(g, h, w, x0, y0, pb, modes + [m])
    {
      assert (modes + [m])[..|modes|] == modes;
    }

    /** The first prediction block of a CU is derived from tab_ipm as it was before the CU. */
    lemma {:induction false} FirstBlockSeesOldGrid(g: seq<seq<int>>, h: nat, w: nat, x0: nat, y0: nat, pb: nat,
                                                   ctbLeftFlag: bool, ctbUpFlag: bool, syn: seq<PbSyntax>,
                                                   modes: seq<int>)
      requires CuInputs(g, h, w, x0, y0, pb, ctbLeftFlag, ctbUpFlag, syn) && 1 <= |modes| <= |syn| && AllModes(modes)
      requires Derived(g, h, w, x0, y0, pb, ctbLeftFlag, ctbUpFlag, syn, modes)
      ensures modes[0] == ModeOn(g, h, w, BlockX(x0, pb, 0), BlockY(y0, pb, 0), pb, ctbLeftFlag, ctbUpFlag, syn[0])
      decreases |modes|
    {
      if |modes| > 1 {
        var k := |modes| - 1;
        FirstBlockSeesOldGrid(g, h, w, x0, y0, pb, ctbLeftFlag, ctbUpFlag, syn, modes[..k]);
      } else {
        assert modes[..0] == [];
      }
    }

    /** The CU's blocks change no cell outside them. */
    lemma {:induction false} CuGridOutside(g: seq<seq<int>>, h: nat, w: nat, x0: nat, y0: nat, pb: nat,
                                           modes: seq<int>)
      requires GridOk(g, h, w)
      ensures forall y, x :: 0 <= y < h && 0 <= x < w && !InCu(x0, y0, pb, |modes|, y, x) ==>
        |CuGrid(g, h, w, x0, y0, pb, modes)| == h && |CuGrid(g, h, w, x0, y0, pb, modes)[y]| == w &&
        CuGrid(g, h, w, x0, y0, pb, modes)[y][x] == g[y][x]
      decreases |modes|
    {
      if |modes| > 0 {
        CuGridOutside(g, h, w, x0, y0, pb, modes[..|modes| - 1]);
      }
    }

    /**
     * intra_prediction_unit: one luma mode per prediction block (four for
     * PART_NxN, in raster order), each derived by luma_intra_pred_mode, then
     * the chroma modes: one per block for 4:4:4, a single tab_mode_idx-mapped
     * mode for 4:2:2, a single mode for 4:2:0 and none for 4:0:0.
     */
    method IntraPredictionUnit(x0: nat, y0: nat, log2CbSize: nat, partNxN: bool,
                               ctbLeftFlag: bool, ctbUpFlag: bool,
                               syn: seq<PbSyntax>, chromaFormatIdc: nat, chromaSyn: seq<nat>)
      returns (luma: seq<int>, chroma: seq<int>)
      requires Valid()
      requires CanPredictCu(x0, y0, log2CbSize, partNxN, ctbLeftFlag, ctbUpFlag)
      requires |syn| == (if partNxN then 4 else 1)
      requires forall k :: 0 <= k < |syn| ==> PbSyntaxValid(syn[k])
      requires chromaFormatIdc <= 3
      requires |chromaSyn| == (if chromaFormatIdc == 3 then |syn| else if chromaFormatIdc == 0 then 0 else 1)
      requires forall k :: 0 <= k < |chromaSyn| ==> chromaSyn[k] <= 4
      modifies ipm, intra
      ensures Valid()
      ensures var g := old(Grid());
        var pb := PbSize(log2CbSize, partNxN);
        |luma| == |syn| && AllModes(luma) && Derived(g, ipm.Length0, ipm.Length1, x0, y0, pb, ctbLeftFlag, ctbUpFlag, syn, luma) &&
        Grid() == CuGrid(g, ipm.Length0, ipm.Length1, x0, y0, pb, luma)
      ensures forall y, x :: 0 <= y < intra.Length0 && 0 <= x < intra.Length1 ==>
        intra[y, x] == (InCu(x0, y0, PbSize(log2CbSize, partNxN), |syn|, y, x) || old(intra[y, x]))
      ensures |luma| == |syn| && forall k :: 0 <= k < |luma| ==> IsMode(luma[k])
      ensures chromaFormatIdc == 3 ==>
        |chroma| == |luma| && forall k :: 0 <= k < |chroma| ==> chroma[k] == ChromaMode(luma[k], chromaSyn[k])
      ensures chromaFormatIdc == 2 ==> chroma == [ChromaMode422(luma[0], chromaSyn[0])]
      ensures chromaFormatIdc == 1 ==> chroma == [ChromaMode(luma[0], chromaSyn[0])]
      ensures chromaFormatIdc == 0 ==> chroma == []
    {
      luma := PredictLumaModes(x0, y0, log2CbSize, partNxN, ctbLeftFlag, ctbUpFlag, syn);
      chroma := ChromaModes(luma, chromaFormatIdc, chromaSyn);
    }

    /** The chroma half of intra_prediction_unit, from the luma modes just derived. */
    static method ChromaModes(luma: seq<int>, chromaFormatIdc: nat, chromaSyn: seq<nat>) returns (chroma: seq<int>)
      requires 1 <= |luma| && forall k :: 0 <= k < |luma| ==> IsMode(luma[k])
      requires chromaFormatIdc <= 3
      requires |chromaSyn| == (if chromaFormatIdc == 3 then |luma| else if chromaFormatIdc == 0 then 0 else 1)
      requires forall k :: 0 <= k < |chromaSyn| ==> chromaSyn[k] <= 4
      ensures chromaFormatIdc == 3 ==>
        |chroma| == |luma| && forall k :: 0 <= k < |chroma| ==> chroma[k] == ChromaMode(luma[k], chromaSyn[k])
      ensures chromaFormatIdc == 2 ==> chroma == [ChromaMode422(luma[0], chromaSyn[0])]
      ensures chromaFormatIdc == 1 ==> chroma == [ChromaMode(luma[0], chromaSyn[0])]
      ensures chromaFormatIdc == 0 ==> chroma == []
    {
      chroma := [];
      if chromaFormatIdc == 3 {
        var k := 0;
        while k < |luma|
          invariant 0 <= k <= |luma|
          invariant |chroma| == k
          invariant forall t :: 0 <= t < k ==> chroma[t] == ChromaMode(luma[t], chromaSyn[t])
        {
          chroma := chroma + [ChromaMode(luma[k], chromaSyn[k])];
          k := k + 1;
        }
      } else if chromaFormatIdc == 2 {
        chroma := [ModeIdx422[ChromaMode(luma[0], chromaSyn[0])]];
      } else if chromaFormatIdc != 0 {
        chroma := [ChromaMode(luma[0], chromaSyn[0])];
      }
    }

    /**
     * The luma loop of intra_prediction_unit: the blocks in raster order,
     * each derived from the grid the earlier ones left.
     */
    method PredictLumaModes(x0: nat, y0: nat, log2CbSize: nat, partNxN: bool,
                            ctbLeftFlag: bool, ctbUpFlag: bool, syn: seq<PbSyntax>)
      returns (luma: seq<int>)
      requires Valid()
      requires CanPredictCu(x0, y0, log2CbSize, partNxN, ctbLeftFlag, ctbUpFlag)
      requires |syn| == (if partNxN then 4 else 1)
      requires forall k :: 0 <= k < |syn| ==> PbSyntaxValid(syn[k])
      modifies ipm, intra
      ensures Valid()
      ensures var g := old(Grid());
        var pb := PbSize(log2CbSize, partNxN);
        |luma| == |syn| && AllModes(luma) && Derived(g, ipm.Length0, ipm.Length1, x0, y0, pb, ctbLeftFlag, ctbUpFlag, syn, luma) &&
        Grid() == CuGrid(g, ipm.Length0, ipm.Length1, x0, y0, pb, luma)
      ensures forall y, x :: 0 <= y < intra.Length0 && 0 <= x < intra.Length1 ==>
        intra[y, x] == (InCu(x0, y0, PbSize(log2CbSize, partNxN), |syn|, y, x) || old(intra[y, x]))
      ensures |luma| == |syn| && forall k :: 0 <= k < |luma| ==> IsMode(luma[k])
    {
      var side := if partNxN then 2 else 1;
      ghost var g0 := Grid();
      ghost var f0 := Marks();
      GridOfValid();
      luma := [];
      var i := 0;
      while i < side
        invariant 0 <= i <= side
        invariant Valid() && CanPredictCu(x0, y0, log2CbSize, partNxN, ctbLeftFlag, ctbUpFlag)
        invariant |luma| == (if partNxN then 2 * i else i)
        invariant Start(g0, f0, x0, y0, PbSize(log2CbSize, partNxN), ctbLeftFlag, ctbUpFlag, syn)
        invariant Reached(g0, f0, x0, y0, PbSize(log2CbSize, partNxN), ctbLeftFlag, ctbUpFlag, syn, luma)
      {
        var j := 0;
        while j < side
          invariant 0 <= j <= side
          invariant Valid() && CanPredictCu(x0, y0, log2CbSize, partNxN, ctbLeftFlag, ctbUpFlag)
          invariant |luma| == (if partNxN then 2 * i + j else i + j)
          invariant Start(g0, f0, x0, y0, PbSize(log2CbSize, partNxN), ctbLeftFlag, ctbUpFlag, syn)
          invariant Reached(g0, f0, x0, y0, PbSize(log2CbSize, partNxN), ctbLeftFlag, ctbUpFlag, syn, luma)
        {
          var m := StepBlock(x0, y0, log2CbSize, partNxN, ctbLeftFlag, ctbUpFlag, syn, 2 * i + j, g0, f0, luma);
          luma := luma + [m];
          j := j + 1;
        }
        i := i + 1;
      }
    }

    /** The current intra marks of tab_mvf as a value. */
    function Marks(): (f: seq<seq<bool>>)
      reads this, intra
      ensures |f| == intra.Length0
      ensures forall y :: 0 <= y < intra.Length0 ==>
        |f[y]| == intra.Length1 && forall x :: 0 <= x < intra.Length1 ==> f[y][x] == intra[y, x]
    {
      var a := intra;
      seq(a.Length0, y requires 0 <= y < a.Length0 reads a =>
        seq(a.Length1, x requires 0 <= x < a.Length1 reads a => a[y, x]))
    }

    /** tab_ipm g0 and intra marks f0 as the CU found them, shaped like the grid, with a CU that fits. */
    predicate Start(g0: seq<seq<int>>, f0: seq<seq<bool>>, x0: nat, y0: nat, pb: nat,
                    ctbLeftFlag: bool, ctbUpFlag: bool, syn: seq<PbSyntax>)
      reads this
    {
      CuInputs(g0, ipm.Length0, ipm.Length1, x0, y0, pb, ctbLeftFlag, ctbUpFlag, syn) &&
      intra.Length0 == ipm.Length0 && intra.Length1 == ipm.Length1 &&
      |f0| == intra.Length0 && forall y :: 0 <= y < intra.Length0 ==> |f0[y]| == intra.Length1
    }

    /**
     * Starting from tab_ipm g0 and intra marks f0, the blocks of the CU
     * derived so far gave `luma`, the grid is what the fold leaves after
     * them, and exactly their cells were newly marked intra.
     */
    predicate Reached(g0: seq<seq<int>>, f0: seq<seq<bool>>, x0: nat, y0: nat, pb: nat,
                      ctbLeftFlag: bool, ctbUpFlag: bool, syn: seq<PbSyntax>, luma: seq<int>)
      reads this, ipm, intra
      requires Start(g0, f0, x0, y0, pb, ctbLeftFlag, ctbUpFlag, syn)
    {
      |luma| <= |syn| && AllModes(luma) &&
      Derived(g0, ipm.Length0, ipm.Length1, x0, y0, pb, ctbLeftFlag, ctbUpFlag, syn, luma) &&
      Grid() == CuGrid(g0, ipm.Length0, ipm.Length1, x0, y0, pb, luma) &&
      forall y, x :: 0 <= y < intra.Length0 && 0 <= x < intra.Length1 ==>
        intra[y, x] == (InCu(x0, y0, pb, |luma|, y, x) || f0[y][x])
    }

    /** One pass of the luma loop: block k = |luma| goes through luma_intra_pred_mode. */
    method StepBlock(x0: nat, y0: nat, log2CbSize: nat, partNxN: bool, ctbLeftFlag: bool, ctbUpFlag: bool,
                     syn: seq<PbSyntax>, k: nat, ghost g0: seq<seq<int>>, ghost f0: seq<seq<bool>>,
                     ghost luma: seq<int>)
      returns (m: int)
      requires Valid() && CanPredictCu(x0, y0, log2CbSize, partNxN, ctbLeftFlag, ctbUpFlag)
      requires |syn| == (if partNxN then 4 else 1) && k == |luma| < |syn|
      requires Start(g0, f0, x0, y0, PbSize(log2CbSize, partNxN), ctbLeftFlag, ctbUpFlag, syn)
      requires Reached(g0, f0, x0, y0, PbSize(log2CbSize, partNxN), ctbLeftFlag, ctbUpFlag, syn, luma)
      modifies ipm, intra
      ensures Valid()
      ensures Reached(g0, f0, x0, y0, PbSize(log2CbSize, partNxN), ctbLeftFlag, ctbUpFlag, syn, luma + [m])
    {
      var pb := PbSize(log2CbSize, partNxN);
      m := PredictBlock(x0, y0, log2CbSize, partNxN, ctbLeftFlag, ctbUpFlag, syn[k], k);
      DerivedSnoc(g0, ipm.Length0, ipm.Length1, x0, y0, pb, ctbLeftFlag, ctbUpFlag, syn, luma, m, Grid());
      assert forall y, x :: 0 <= y < intra.Length0 && 0 <= x < intra.Length1 ==>
        intra[y, x] == (InCu(x0, y0, pb, k + 1, y, x) || f0[y][x]);
    }

    /**
     * luma_intra_pred_mode on prediction block k = 2·i + j of the CU at
     * (x0, y0), whose corner is (x0 + pb_size·j, y0 + pb_size·i). The mode
     * is stated on the snapshot of tab_ipm before the call, which
     * PredictedOnGrid equates with PredictedMode read in place.
     */
    method PredictBlock(x0: nat, y0: nat, log2CbSize: nat, partNxN: bool, ctbLeftFlag: bool, ctbUpFlag: bool,
                        syn: PbSyntax, k: nat)
      returns (m: int)
      requires Valid() && PbSyntaxValid(syn)
      requires CanPredictCu(x0, y0, log2CbSize, partNxN, ctbLeftFlag, ctbUpFlag)
      requires k < (if partNxN then 4 else 1)
      modifies ipm, intra
      ensures Valid() && IsMode(m)
      ensures var pb := PbSize(log2CbSize, partNxN);
        m == ModeOn(old(Grid()), ipm.Length0, ipm.Length1, BlockX(x0, pb, k), BlockY(y0, pb, k), pb,
                    ctbLeftFlag, ctbUpFlag, syn)
      ensures var pb := PbSize(log2CbSize, partNxN);
        var xPu := Shr(BlockX(x0, pb, k), log2MinPuSize);
        var yPu := Shr(BlockY(y0, pb, k), log2MinPuSize);
        Painted(xPu, yPu, SizeInPus(pb), m) && Grid() == PaintOn(old(Grid()), xPu, yPu, SizeInPus(pb), m)
    {
      var pb := PbSize(log2CbSize, partNxN);
      PredictedOnGrid(BlockX(x0, pb, k), BlockY(y0, pb, k), pb, ctbLeftFlag, ctbUpFlag, syn);
      m := LumaIntraPredMode(BlockX(x0, pb, k), BlockY(y0, pb, k), pb, ctbLeftFlag, ctbUpFlag, syn);
    }

    /**
     * Since the previous state, exactly the cells of the square of side
     * size at PU (xPu, yPu) took `mode` and the intra mark; every other
     * cell kept its value.
     */
    twostate predicate Painted(xPu: nat, yPu: nat, size: nat, mode: int)
      reads this, ipm, intra
    {
      ipm == old(ipm) && intra == old(intra) &&
      ipm.Length0 == intra.Length0 && ipm.Length1 == intra.Length1 &&
      (forall y, x :: 0 <= y < ipm.Length0 && 0 <= x < ipm.Length1 ==>
         ipm[y, x] == (if InRect(xPu, yPu, size, y, x) then mode else old(ipm[y, x]))) &&
      (forall y, x :: 0 <= y < intra.Length0 && 0 <= x < intra.Length1 ==>
         intra[y, x] == (InRect(xPu, yPu, size, y, x) || old(intra[y, x])))
    }
  }
}
