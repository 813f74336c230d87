/**
 * Explicit weighted-prediction tables of a slice header (section 7.3.6.3 of
 * ITU-T H.265), as pred_weight_table and default_pred_weight_table in
 * hevcdec.c fill them: the clipped log2 denominators, and per reference the
 * luma and two chroma weights and offsets, with the defaults used when a
 * weight flag is 0.
 *
 * The Exp-Golomb and flag values read from the bitstream are inputs
 * (WeightSyntax); their read order is not modelled.
 */
module PredWeight {
  import opened Bits

  /** The luma_weight_lX / chroma_weight_lX arrays hold 16 entries. */
  const MaxRefs := 16
  const DenomBits := 3
  /** wpOffsetHalfRangeC for 8-bit chroma offsets. */
  const HalfRange := 128

  /** One reference's weights and offsets: luma, then Cb and Cr. */
  datatype Weights = Weights(lumaWeight: int, lumaOffset: int, chromaWeight: seq<int>, chromaOffset: seq<int>)

  /** The values read for one reference of one list. */
  datatype WeightSyntax = WeightSyntax(
    lumaFlag: bool,
    chromaFlag: bool,
    deltaLumaWeight: int,
    lumaOffset: int,
    deltaChromaWeight: seq<int>,
    deltaChromaOffset: seq<int>)

  predicate SyntaxOk(s: WeightSyntax)
  {
    |s.deltaChromaWeight| == 2 && |s.deltaChromaOffset| == 2
  }

  /** av_clip_uintp2(x, 3): a log2 weight denominator is kept in 0..7. */
  function Denom(x: int): (r: int)
    ensures 0 <= r <= 7
    ensures 0 <= x <= 7 ==> r == x
    ensures x < 0 ==> r == 0
    ensures x > 7 ==> r == 7
  {
    assert Pow2(3) == 8;
    ClipUintp2(x, DenomBits)
  }

  /**
   * ChromaOffset: the coded delta less the offset the weight itself implies,
   * re-centred and clipped to a signed 8-bit range.
   */
  function ChromaOffset(deltaOffset: int, weight: int, denom: nat): (r: int)
    ensures -HalfRange <= r <= HalfRange - 1
    ensures -HalfRange <= deltaOffset - Asr(HalfRange * weight, denom) + HalfRange <= HalfRange - 1 ==>
      r == deltaOffset - Asr(HalfRange * weight, denom) + HalfRange
  {
    Clip(deltaOffset - Asr(HalfRange * weight, denom) + HalfRange, -HalfRange, HalfRange - 1)
  }

  /** The weights of one reference, given the slice's current denominators. */
  function EntryFor(lumaDenom: nat, chromaDenom: nat, chromaPresent: bool, s: WeightSyntax): (r: Weights)
    requires SyntaxOk(s)
    ensures |r.chromaWeight| == 2 && |r.chromaOffset| == 2
  {
    var lw := if s.lumaFlag then Pow2(lumaDenom) + s.deltaLumaWeight else Pow2(lumaDenom);
    var lo := if s.lumaFlag then s.lumaOffset else 0;
    if chromaPresent && s.chromaFlag then
      var cw := seq(2, j requires 0 <= j < 2 => Pow2(chromaDenom) + s.deltaChromaWeight[j]);
      Weights(lw, lo, cw, seq(2, j requires 0 <= j < 2 => ChromaOffset(s.deltaChromaOffset[j], cw[j], chromaDenom)))
    else
      Weights(lw, lo, [Pow2(chromaDenom), Pow2(chromaDenom)], [0, 0])
  }

  /** The entry default_pred_weight_table writes: unit weights, zero offsets. */
  const DefaultEntry := Weights(1, 0, [1, 1], [0, 0])

  /**
   * A reference whose weight flags are 0 gets weight 1 << denom and offset 0
   * for each component, and every chroma offset lies in [-128, 127].
   */
  lemma UnflaggedIsUnweighted(lumaDenom: nat, chromaDenom: nat, chromaPresent: bool, s: WeightSyntax)
    requires SyntaxOk(s)
    ensures var r := EntryFor(lumaDenom, chromaDenom, chromaPresent, s);
      (!s.lumaFlag ==> r.lumaWeight == Pow2(lumaDenom) && r.lumaOffset == 0) &&
      (!(chromaPresent && s.chromaFlag) ==> r.chromaWeight == [Pow2(chromaDenom), Pow2(chromaDenom)] && r.chromaOffset == [0, 0]) &&
      (forall j :: 0 <= j < 2 ==> -128 <= r.chromaOffset[j] <= 127)
  {
  }

  /** Shifting back what was shifted up: (x << k) >> k == x for signed x. */
  lemma {:induction false} AsrOfScaled(x: int, k: nat)
    ensures Asr(x * Pow2(k), k) == x
  {
    if k > 0 {
      var p := Pow2(k - 1);
      assert x * Pow2(k) == 2 * (x * p);
      assert (x * Pow2(k)) / 2 == x * p;
      AsrOfScaled(x, k - 1);
    }
  }

  /**
   * Coding the flags with zero deltas and zero offsets describes the same
   * weights as leaving the flags at 0: the derived chroma offset of the
   * default weight is 0.
   */
  lemma ZeroDeltasAreUnweighted(lumaDenom: nat, chromaDenom: nat, chromaPresent: bool, s: WeightSyntax)
    requires SyntaxOk(s)
    requires s.deltaLumaWeight == 0 && s.lumaOffset == 0
    requires s.deltaChromaWeight == [0, 0] && s.deltaChromaOffset == [0, 0]
    ensures EntryFor(lumaDenom, chromaDenom, chromaPresent, s) ==
            EntryFor(lumaDenom, chromaDenom, chromaPresent, s.(lumaFlag := false, chromaFlag := false))
  {
    AsrOfScaled(HalfRange, chromaDenom);
    assert HalfRange * Pow2(chromaDenom) == Pow2(chromaDenom) * HalfRange;
  }

  /**
   * The default table is the table pred_weight_table would build with both
   * denominators 0 and every weight flag 0.
   */
  lemma DefaultIsUnflagged(chromaPresent: bool, s: WeightSyntax)
    requires SyntaxOk(s) && !s.lumaFlag && !s.chromaFlag
    ensures EntryFor(0, 0, chromaPresent, s) == DefaultEntry
  {
  }

  /** The weighted-prediction fields of the slice header. */
  class SliceWeights {
    var lumaLog2WeightDenom: int
    var chromaLog2WeightDenom: int
    /** luma_weight_l0 .. chroma_offset_l0 and the l1 counterparts, per reference. */
    const l0: array<Weights>
    const l1: array<Weights>

    ghost predicate Valid()
      reads this
    {
      l0.Length == MaxRefs && l1.Length == MaxRefs && l0 != l1 &&
      0 <= lumaLog2WeightDenom <= 7 && 0 <= chromaLog2WeightDenom <= 7
    }

    constructor ()
      ensures Valid() && fresh(l0) && fresh(l1)
      ensures lumaLog2WeightDenom == 0 && chromaLog2WeightDenom == 0
    {
      lumaLog2WeightDenom := 0;
      chromaLog2WeightDenom := 0;
      l0 := new Weights[MaxRefs](i => DefaultEntry);
      l1 := new Weights[MaxRefs](i => DefaultEntry);
    }

    /** Fill the first n entries of one list from their syntax. */
    static method FillList(list: array<Weights>, n: nat, ld: nat, cd: nat, chromaPresent: bool, syn: seq<WeightSyntax>)
      requires n <= list.Length && n <= |syn|
      requires forall i :: 0 <= i < n ==> SyntaxOk(syn[i])
      modifies list
      ensures forall i :: 0 <= i < n ==> list[i] == EntryFor(ld, cd, chromaPresent, syn[i])
      ensures forall i :: n <= i < list.Length ==> list[i] == old(list[i])
    {
      var i := 0;
      while i < n
        invariant 0 <= i <= n
        invariant forall k :: 0 <= k < i ==> list[k] == EntryFor(ld, cd, chromaPresent, syn[k])
        invariant forall k :: n <= k < list.Length ==> list[k] == old(list[k])
      {
        list[i] := EntryFor(ld, cd, chromaPresent, syn[i]);
        i := i + 1;
      }
    }

    /**
     * pred_weight_table: the denominators are clipped to 0..7 (the chroma
     * one is left alone without chroma), then the first nb_refs[L0] entries
     * of list 0 are set and, in a B slice, the first nb_refs[L1] of list 1.
     */
    method PredWeightTable(codedLumaDenom: int, deltaChromaDenom: int, chromaPresent: bool, isB: bool,
                           nbRefs0: nat, nbRefs1: nat, syn0: seq<WeightSyntax>, syn1: seq<WeightSyntax>)
      requires Valid()
      requires nbRefs0 <= MaxRefs && nbRefs1 <= MaxRefs && nbRefs0 <= |syn0| && nbRefs1 <= |syn1|
      requires forall i :: 0 <= i < nbRefs0 ==> SyntaxOk(syn0[i])
      requires forall i :: 0 <= i < nbRefs1 ==> SyntaxOk(syn1[i])
      modifies this, l0, l1
      ensures Valid()
      ensures lumaLog2WeightDenom == Denom(codedLumaDenom)
      ensures chromaLog2WeightDenom ==
        if chromaPresent then Denom(lumaLog2WeightDenom + deltaChromaDenom) else old(chromaLog2WeightDenom)
      ensures forall i :: 0 <= i < nbRefs0 ==>
        l0[i] == EntryFor(lumaLog2WeightDenom, chromaLog2WeightDenom, chromaPresent, syn0[i])
      ensures forall i :: nbRefs0 <= i < MaxRefs ==> l0[i] == old(l0[i])
      ensures isB ==> forall i :: 0 <= i < nbRefs1 ==>
        l1[i] == EntryFor(lumaLog2WeightDenom, chromaLog2WeightDenom, chromaPresent, syn1[i])
      ensures forall i :: (if isB then nbRefs1 else 0) <= i < MaxRefs ==> l1[i] == old(l1[i])
    {
      lumaLog2WeightDenom := Denom(codedLumaDenom);
      if chromaPresent {
        chromaLog2WeightDenom := Denom(lumaLog2WeightDenom + deltaChromaDenom);
      }
      FillList(l0, nbRefs0, lumaLog2WeightDenom, chromaLog2WeightDenom, chromaPresent, syn0);
      if isB {
        FillList(l1, nbRefs1, lumaLog2WeightDenom, chromaLog2WeightDenom, chromaPresent, syn1);
      }
    }

    /** default_pred_weight_table: denominators 0, unit weights and zero offsets for the used entries. */
    method DefaultPredWeightTable(nbRefs0: nat, nbRefs1: nat)
      requires Valid() && nbRefs0 <= MaxRefs && nbRefs1 <= MaxRefs
      modifies this, l0, l1
      ensures Valid()
      ensures lumaLog2WeightDenom == 0 && chromaLog2WeightDenom == 0
      ensures forall i :: 0 <= i < nbRefs0 ==> l0[i] == DefaultEntry
      ensures forall i :: nbRefs0 <= i < MaxRefs ==> l0[i] == old(l0[i])
      ensures forall i :: 0 <= i < nbRefs1 ==> l1[i] == DefaultEntry
      ensures forall i :: nbRefs1 <= i < MaxRefs ==> l1[i] == old(l1[i])
    {
      lumaLog2WeightDenom := 0;
      chromaLog2WeightDenom := 0;
      var i := 0;
      while i < nbRefs0
        invariant 0 <= i <= nbRefs0
        invariant forall k :: 0 <= k < i ==> l0[k] == DefaultEntry
        invariant forall k :: nbRefs0 <= k < MaxRefs ==> l0[k] == old(l0[k])
        modifies l0
      {
        l0[i] := DefaultEntry;
        i := i + 1;
      }
      i := 0;
      while i < nbRefs1
        invariant 0 <= i <= nbRefs1
        invariant forall k :: 0 <= k < i ==> l1[k] == DefaultEntry
        invariant forall k :: nbRefs1 <= k < MaxRefs ==> l1[k] == old(l1[k])
        modifies l1
      {
        l1[i] := DefaultEntry;
        i := i + 1;
      }
    }
  }
}
