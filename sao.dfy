/**
 * Sample adaptive offset parameters of one CTB (section 7.3.8.3 of ITU-T
 * H.265) as hls_sao_param in hevcdec.c reads and infers them: the merge
 * flags, the per-component copy from the left or upper CTB, Cr sharing Cb's
 * type and edge class, and the signed, scaled offset values derived from the
 * coded magnitudes.
 *
 * The values the CABAC decoder would return are inputs (SaoSyntax); a value
 * that is not decoded because a merge flag is set is ignored.
 */
module Sao {
  import opened Bits

  /** SAO_NOT_APPLIED, SAO_BAND, SAO_EDGE. */
  datatype SaoType = NotApplied | Band | Edge

  /** The parameters of one colour component of one CTB. */
  datatype SaoComp = SaoComp(
    typeIdx: SaoType,
    offsetAbs: seq<nat>,
    offsetSign: seq<bool>,
    bandPosition: nat,
    eoClass: nat,
    offsetVal: seq<int>)

  /** A component's parameters as all-zero memory reads them: SAO_NOT_APPLIED is 0. */
  const Zeroed := SaoComp(NotApplied, [0, 0, 0, 0], [false, false, false, false], 0, 0, [0, 0, 0, 0, 0])

  predicate CompOk(p: SaoComp)
  {
    |p.offsetAbs| == 4 && |p.offsetSign| == 4 && |p.offsetVal| == 5
  }

  /** The three components of one CTB's SAOParams. */
  predicate CtbOk(s: seq<SaoComp>)
  {
    |s| == 3 && CompOk(s[0]) && CompOk(s[1]) && CompOk(s[2])
  }

  /** What the CABAC decoder returns for one component when asked. */
  datatype CompSyntax = CompSyntax(
    typeIdx: SaoType,
    offsetAbs: seq<nat>,
    offsetSign: seq<bool>,
    bandPosition: nat,
    eoClass: nat)

  predicate SyntaxOk(s: CompSyntax)
  {
    |s.offsetAbs| == 4 && |s.offsetSign| == 4
  }

  /**
   * sao_merge_left_flag and sao_merge_up_flag: read only when SAO is on for
   * luma or chroma in this slice and the neighbour exists in the same slice
   * and tile; the up flag is not read once merge-left is set.
   */
  function MergeFlags(sliceSao0: bool, sliceSao1: bool, rx: nat, ry: nat,
                      ctbLeft: bool, ctbUp: bool, codedLeft: bool, codedUp: bool): (r: (bool, bool))
    ensures !(r.0 && r.1)
    ensures r.0 <==> (sliceSao0 || sliceSao1) && rx > 0 && ctbLeft && codedLeft
    ensures r.1 <==> (sliceSao0 || sliceSao1) && !r.0 && ry > 0 && ctbUp && codedUp
  {
    var on := sliceSao0 || sliceSao1;
    var left := on && rx > 0 && ctbLeft && codedLeft;
    var up := on && !left && ry > 0 && ctbUp && codedUp;
    (left, up)
  }

  /**
   * SET_SAO: the decoded value when neither merge flag is set, else the left
   * CTB's value, else the upper CTB's.
   */
  function Pick<T>(mergeLeft: bool, mergeUp: bool, coded: T, left: T, up: T): T
  {
    if !mergeUp && !mergeLeft then coded
    else if mergeLeft then left
    else up
  }

  /** The coded magnitude, negated for the last two edge offsets or for a set band sign. */
  function Signed(t: SaoType, abs: nat, sign: bool, i: nat): int
  {
    if t == Edge then (if i > 1 then -(abs as int) else abs)
    else if sign then -(abs as int) else abs
  }

  /** SaoOffsetVal for entry i + 1: the signed offset scaled by 1 << log2_sao_offset_scale. */
  function OffsetVal(t: SaoType, abs: nat, sign: bool, i: nat, scale: nat): int
  {
    Signed(t, abs, sign, i) * Pow2(scale)
  }

  lemma ScaleKeepsSign(a: int, p: nat)
    requires p >= 1
    ensures a * p >= 0 <==> a >= 0
    ensures a * p > 0 <==> a > 0
    ensures (-a) * p == -(a * p)
  {
  }

  /**
   * The sign and magnitude of an inferred offset: the magnitude is always
   * the coded one scaled; edge offsets 1-2 are non-negative and 3-4
   * non-positive; a band offset is negative exactly when its sign is set
   * and its magnitude is not zero.
   */
  lemma OffsetValFacts(t: SaoType, abs: nat, sign: bool, i: nat, scale: nat)
    ensures OffsetVal(t, abs, sign, i, scale) == abs * Pow2(scale) ||
            OffsetVal(t, abs, sign, i, scale) == -(abs * Pow2(scale))
    ensures t == Edge && i <= 1 ==> OffsetVal(t, abs, sign, i, scale) >= 0
    ensures t == Edge && i > 1 ==> OffsetVal(t, abs, sign, i, scale) <= 0
    ensures t != Edge ==> (OffsetVal(t, abs, sign, i, scale) < 0 <==> sign && abs > 0)
    ensures t != Edge ==> (OffsetVal(t, abs, sign, i, scale) > 0 <==> !sign && abs > 0)
  {
    ScaleKeepsSign(abs, Pow2(scale));
    ScaleKeepsSign(Signed(t, abs, sign, i), Pow2(scale));
  }

  /**
   * The inferred-parameter loop of hls_sao_param: offset_val[0] is 0 and
   * each further entry is the signed, scaled coded offset.
   */
  method InferOffsets(t: SaoType, abs: seq<nat>, sign: seq<bool>, scale: nat) returns (val: seq<int>)
    requires |abs| == 4 && |sign| == 4
    ensures |val| == 5 && val[0] == 0 && val == DerivedVals(t, abs, sign, scale)
    ensures forall i :: 0 <= i < 4 ==> val[i + 1] == OffsetVal(t, abs[i], sign[i], i, scale)
    ensures forall i :: 0 <= i < 4 ==>
      val[i + 1] == abs[i] * Pow2(scale) || val[i + 1] == -(abs[i] * Pow2(scale))
    ensures t == Edge ==> val[1] >= 0 && val[2] >= 0 && val[3] <= 0 && val[4] <= 0
    ensures t != Edge ==> forall i :: 0 <= i < 4 ==> (val[i + 1] < 0 <==> sign[i] && abs[i] > 0)
  {
    val := [0];
    var i := 0;
    while i < 4
      invariant 0 <= i <= 4
      invariant |val| == i + 1 && val[0] == 0
      invariant forall j :: 0 <= j < i ==> val[j + 1] == OffsetVal(t, abs[j], sign[j], j, scale)
    {
      var v: int := abs[i];
      if t == Edge {
        if i > 1 {
          v := -v;
        }
      } else if sign[i] {
        v := -v;
      }
      v := v * Pow2(scale);
      val := val + [v];
      i := i + 1;
    }
    forall i | 0 <= i < 4
      ensures val[i + 1] == abs[i] * Pow2(scale) || val[i + 1] == -(abs[i] * Pow2(scale))
      ensures t == Edge && i <= 1 ==> val[i + 1] >= 0
      ensures t == Edge && i > 1 ==> val[i + 1] <= 0
      ensures t != Edge ==> (val[i + 1] < 0 <==> sign[i] && abs[i] > 0)
    {
      OffsetValFacts(t, abs[i], sign[i], i, scale);
    }
  }

  /** The offset_val row derived from a component's own type and coded offsets. */
  function DerivedVals(t: SaoType, abs: seq<nat>, sign: seq<bool>, scale: nat): (r: seq<int>)
    requires |abs| == 4 && |sign| == 4
    ensures |r| == 5 && r[0] == 0
  {
    [0] + seq(4, i requires 0 <= i < 4 => OffsetVal(t, abs[i], sign[i], i, scale))
  }

  /** The band signs: copied (or decoded) where the magnitude is non-zero, cleared elsewhere. */
  function BandSigns(ml: bool, mu: bool, abs: seq<nat>, coded: seq<bool>, left: seq<bool>, up: seq<bool>): (r: seq<bool>)
    requires |abs| == 4 && |coded| == 4 && |left| == 4 && |up| == 4
    ensures |r| == 4
    ensures forall i :: 0 <= i < 4 && abs[i] == 0 ==> !r[i]
  {
    seq(4, i requires 0 <= i < 4 => if abs[i] != 0 then Pick(ml, mu, coded[i], left[i], up[i]) else false)
  }

  /**
   * The parameters of component c of the CTB after hls_sao_param, given its
   * previous contents, the merge flags, the left and upper CTB's component,
   * this CTB's Cb result (for Cr), the slice flag, the decoded syntax and
   * the offset scale. Fields the source does not write keep their old value.
   */
  function CompAfter(c: nat, on: bool, prev: SaoComp, ml: bool, mu: bool, left: SaoComp, up: SaoComp,
                     cb: SaoComp, syn: CompSyntax, scale: nat): (r: SaoComp)
    requires c < 3 && CompOk(prev) && CompOk(left) && CompOk(up) && SyntaxOk(syn)
    ensures CompOk(r)
  {
    if !on then prev.(typeIdx := NotApplied)
    else
      var t := if c == 2 then cb.typeIdx else Pick(ml, mu, syn.typeIdx, left.typeIdx, up.typeIdx);
      var eo0 := if c == 2 then cb.eoClass else prev.eoClass;
      if t == NotApplied then prev.(typeIdx := t, eoClass := eo0)
      else
        var abs := Pick(ml, mu, syn.offsetAbs, left.offsetAbs, up.offsetAbs);
        var sign := if t == Band then BandSigns(ml, mu, abs, syn.offsetSign, left.offsetSign, up.offsetSign)
                    else prev.offsetSign;
        var band := if t == Band then Pick(ml, mu, syn.bandPosition, left.bandPosition, up.bandPosition)
                    else prev.bandPosition;
        var eo := if t == Edge && c != 2 then Pick(ml, mu, syn.eoClass, left.eoClass, up.eoClass) else eo0;
        SaoComp(t, abs, sign, band, eo, DerivedVals(t, abs, sign, scale))
  }

  /** A component whose offset values are the ones derived from its own fields. */
  predicate Consistent(p: SaoComp, scale: nat)
    requires CompOk(p)
  {
    p.typeIdx != NotApplied ==>
      (p.offsetVal == DerivedVals(p.typeIdx, p.offsetAbs, p.offsetSign, scale) &&
       (p.typeIdx == Band ==> forall i :: 0 <= i < 4 && p.offsetAbs[i] == 0 ==> !p.offsetSign[i]))
  }

  /** With SAO off for the component in this slice only the type changes, to not applied. */
  lemma NotAppliedWhenOff(c: nat, prev: SaoComp, ml: bool, mu: bool, left: SaoComp, up: SaoComp,
                          cb: SaoComp, syn: CompSyntax, scale: nat)
    requires c < 3 && CompOk(prev) && CompOk(left) && CompOk(up) && SyntaxOk(syn)
    ensures CompAfter(c, false, prev, ml, mu, left, up, cb, syn, scale) == prev.(typeIdx := NotApplied)
  {
  }

  /**
   * Merging with the left CTB (luma or Cb): this component takes the left
   * component's type, magnitudes, band position or edge class, and ends up
   * with the same offset values when the left one is consistent.
   */
  lemma MergeLeftCopies(c: nat, prev: SaoComp, mu: bool, left: SaoComp, up: SaoComp,
                        cb: SaoComp, syn: CompSyntax, scale: nat)
    requires c < 2 && CompOk(prev) && CompOk(left) && CompOk(up) && SyntaxOk(syn)
    requires Consistent(left, scale)
    ensures var r := CompAfter(c, true, prev, true, mu, left, up, cb, syn, scale);
      r.typeIdx == left.typeIdx &&
      (r.typeIdx != NotApplied ==> r.offsetAbs == left.offsetAbs && r.offsetVal == left.offsetVal) &&
      (r.typeIdx == Band ==> r.bandPosition == left.bandPosition && r.offsetSign == left.offsetSign) &&
      (r.typeIdx == Edge ==> r.eoClass == left.eoClass)
  {
    var r := CompAfter(c, true, prev, true, mu, left, up, cb, syn, scale);
    if left.typeIdx == Band {
      var s := BandSigns(true, mu, left.offsetAbs, syn.offsetSign, left.offsetSign, up.offsetSign);
      assert r.offsetSign == s;
      forall i | 0 <= i < 4
        ensures s[i] == left.offsetSign[i]
      {
      }
    }
  }

  /** The same when merging upward. */
  lemma MergeUpCopies(c: nat, prev: SaoComp, left: SaoComp, up: SaoComp,
                      cb: SaoComp, syn: CompSyntax, scale: nat)
    requires c < 2 && CompOk(prev) && CompOk(left) && CompOk(up) && SyntaxOk(syn)
    requires Consistent(up, scale)
    ensures var r := CompAfter(c, true, prev, false, true, left, up, cb, syn, scale);
      r.typeIdx == up.typeIdx &&
      (r.typeIdx != NotApplied ==> r.offsetAbs == up.offsetAbs && r.offsetVal == up.offsetVal) &&
      (r.typeIdx == Band ==> r.bandPosition == up.bandPosition && r.offsetSign == up.offsetSign) &&
      (r.typeIdx == Edge ==> r.eoClass == up.eoClass)
  {
    var r := CompAfter(c, true, prev, false, true, left, up, cb, syn, scale);
    if up.typeIdx == Band {
      var s := BandSigns(false, true, up.offsetAbs, syn.offsetSign, left.offsetSign, up.offsetSign);
      assert r.offsetSign == s;
      forall i | 0 <= i < 4
        ensures s[i] == up.offsetSign[i]
      {
      }
    }
  }

  /** Cr never reads its own type or edge class: it shares Cb's. */
  lemma CrSharesCb(prev: SaoComp, ml: bool, mu: bool, left: SaoComp, up: SaoComp,
                   cb: SaoComp, syn: CompSyntax, scale: nat)
    requires CompOk(prev) && CompOk(left) && CompOk(up) && SyntaxOk(syn)
    ensures var r := CompAfter(2, true, prev, ml, mu, left, up, cb, syn, scale);
      r.typeIdx == cb.typeIdx && r.eoClass == cb.eoClass
  {
  }

  /**
   * Every applied component leaves hls_sao_param consistent: its offset
   * values are derived from its own fields, so a later merge reproduces them.
   */
  lemma CompAfterConsistent(c: nat, on: bool, prev: SaoComp, ml: bool, mu: bool, left: SaoComp, up: SaoComp,
                            cb: SaoComp, syn: CompSyntax, scale: nat)
    requires c < 3 && CompOk(prev) && CompOk(left) && CompOk(up) && SyntaxOk(syn)
    ensures var r := CompAfter(c, on, prev, ml, mu, left, up, cb, syn, scale);
      on && r.typeIdx != NotApplied ==> Consistent(r, scale)
  {
  }

  /**
   * The CTB's parameters after the first k components went through
   * hls_sao_param's component loop; Cr reads the Cb component set just before.
   */
  function CtbAfter(k: nat, p: seq<SaoComp>, on: seq<bool>, ml: bool, mu: bool,
                    l: seq<SaoComp>, u: seq<SaoComp>, syn: seq<CompSyntax>,
                    scaleLuma: nat, scaleChroma: nat): (r: seq<SaoComp>)
    requires k <= 3 && CtbOk(p) && CtbOk(l) && CtbOk(u) && |on| == 3 && |syn| == 3
    requires SyntaxOk(syn[0]) && SyntaxOk(syn[1]) && SyntaxOk(syn[2])
    ensures CtbOk(r) && forall i :: k <= i < 3 ==> r[i] == p[i]
  {
    if k == 0 then p
    else
      var cur := CtbAfter(k - 1, p, on, ml, mu, l, u, syn, scaleLuma, scaleChroma);
      var scale := if k == 1 then scaleLuma else scaleChroma;
      cur[k - 1 := CompAfter(k - 1, on[k - 1], cur[k - 1], ml, mu, l[k - 1], u[k - 1], cur[1], syn[k - 1], scale)]
  }

  /**
   * Luma is set from the stored luma, Cb from the stored Cb, and Cr takes
   * what Cb became; with luma alone the chroma components are untouched.
   */
  lemma CtbAfterComponents(p: seq<SaoComp>, on: seq<bool>, ml: bool, mu: bool,
                           l: seq<SaoComp>, u: seq<SaoComp>, syn: seq<CompSyntax>,
                           scaleLuma: nat, scaleChroma: nat)
    requires CtbOk(p) && CtbOk(l) && CtbOk(u) && |on| == 3 && |syn| == 3
    requires SyntaxOk(syn[0]) && SyntaxOk(syn[1]) && SyntaxOk(syn[2])
    ensures var c0 := CompAfter(0, on[0], p[0], ml, mu, l[0], u[0], p[0], syn[0], scaleLuma);
      var c1 := CompAfter(1, on[1], p[1], ml, mu, l[1], u[1], p[1], syn[1], scaleChroma);
      var c2 := CompAfter(2, on[2], p[2], ml, mu, l[2], u[2], c1, syn[2], scaleChroma);
      CtbAfter(1, p, on, ml, mu, l, u, syn, scaleLuma, scaleChroma) == [c0, p[1], p[2]] &&
      CtbAfter(3, p, on, ml, mu, l, u, syn, scaleLuma, scaleChroma) == [c0, c1, c2]
  {
    var a1 := CtbAfter(1, p, on, ml, mu, l, u, syn, scaleLuma, scaleChroma);
    var a2 := CtbAfter(2, p, on, ml, mu, l, u, syn, scaleLuma, scaleChroma);
    assert a1[1] == p[1] && a1[2] == p[2];
    assert a2[1] == CompAfter(1, on[1], p[1], ml, mu, l[1], u[1], p[1], syn[1], scaleChroma);
  }

  /** s->sao: the SAO parameters of every CTB of the picture, indexed [y, x]. */
  class SaoTable {
    const sao: array2<seq<SaoComp>>

    ghost predicate Valid()
      reads this, sao
    {
      forall y, x :: 0 <= y < sao.Length0 && 0 <= x < sao.Length1 ==> CtbOk(sao[y, x])
    }

    constructor (ctbHeight: nat, ctbWidth: nat)
      ensures Valid() && fresh(sao)
      ensures sao.Length0 == ctbHeight && sao.Length1 == ctbWidth
      ensures forall y, x :: 0 <= y < ctbHeight && 0 <= x < ctbWidth ==> sao[y, x] == [Zeroed, Zeroed, Zeroed]
    {
      sao := new seq<SaoComp>[ctbHeight, ctbWidth]((y, x) => [Zeroed, Zeroed, Zeroed]);
    }

    /** The component loop of hls_sao_param over the first nComp components. */
    static method Components(nComp: nat, p: seq<SaoComp>, on: seq<bool>, ml: bool, mu: bool,
                             l: seq<SaoComp>, u: seq<SaoComp>, syn: seq<CompSyntax>,
                             scaleLuma: nat, scaleChroma: nat) returns (cur: seq<SaoComp>)
      requires nComp <= 3 && CtbOk(p) && CtbOk(l) && CtbOk(u) && |on| == 3 && |syn| == 3
      requires SyntaxOk(syn[0]) && SyntaxOk(syn[1]) && SyntaxOk(syn[2])
      ensures cur == CtbAfter(nComp, p, on, ml, mu, l, u, syn, scaleLuma, scaleChroma)
    {
      cur := p;
      var c := 0;
      while c < nComp
        invariant 0 <= c <= nComp
        invariant cur == CtbAfter(c, p, on, ml, mu, l, u, syn, scaleLuma, scaleChroma)
      {
        var scale := if c == 0 then scaleLuma else scaleChroma;
        cur := cur[c := CompAfter(c, on[c], cur[c], ml, mu, l[c], u[c], cur[1], syn[c], scale)];
        c := c + 1;
      }
    }

    /**
     * hls_sao_param for the CTB at (rx, ry): decides the merge flags, then
     * sets each component present in the chroma format, Cb before Cr.
     */
    method SaoParam(rx: nat, ry: nat, sliceSao: seq<bool>, chromaPresent: bool,
                    ctbLeft: bool, ctbUp: bool, codedLeft: bool, codedUp: bool,
                    syn: seq<CompSyntax>, scaleLuma: nat, scaleChroma: nat)
      requires Valid() && ry < sao.Length0 && rx < sao.Length1
      requires |sliceSao| == 3 && |syn| == 3
      requires SyntaxOk(syn[0]) && SyntaxOk(syn[1]) && SyntaxOk(syn[2])
      modifies sao
      ensures Valid()
      ensures forall y, x :: 0 <= y < sao.Length0 && 0 <= x < sao.Length1 && (y, x) != (ry, rx) ==>
        sao[y, x] == old(sao[y, x])
      ensures var m := MergeFlags(sliceSao[0], sliceSao[1], rx, ry, ctbLeft, ctbUp, codedLeft, codedUp);
        var p := old(sao[ry, rx]);
        var l := if rx > 0 then old(sao[ry, rx - 1]) else p;
        var u := if ry > 0 then old(sao[ry - 1, rx]) else p;
        var c0 := CompAfter(0, sliceSao[0], p[0], m.0, m.1, l[0], u[0], p[0], syn[0], scaleLuma);
        var c1 := CompAfter(1, sliceSao[1], p[1], m.0, m.1, l[1], u[1], p[1], syn[1], scaleChroma);
        var c2 := CompAfter(2, sliceSao[2], p[2], m.0, m.1, l[2], u[2], c1, syn[2], scaleChroma);
        sao[ry, rx] == if chromaPresent then [c0, c1, c2] else [c0, p[1], p[2]]
    {
      var m := MergeFlags(sliceSao[0], sliceSao[1], rx, ry, ctbLeft, ctbUp, codedLeft, codedUp);
      var p := sao[ry, rx];
      var l := if rx > 0 then sao[ry, rx - 1] else p;
      var u := if ry > 0 then sao[ry - 1, rx] else p;
      var cur := Components(if chromaPresent then 3 else 1, p, sliceSao, m.0, m.1, l, u, syn, scaleLuma, scaleChroma);
      CtbAfterComponents(p, sliceSao, m.0, m.1, l, u, syn, scaleLuma, scaleChroma);
      sao[ry, rx] := cur;
    }
  }
}
