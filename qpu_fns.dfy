/**
 * The QPU shader entry addresses the decoder keeps per bit depth
 * (rpi_hevc_qpu_init_fn and qpu_fn in rpi_qpu.c). An entry's address is the
 * bus address of the code block plus the entry's byte offset in the shader;
 * the offsets come from the generated shader and are inputs here.
 */
module QpuFns {
  import opened Bits

  /** HEVCRpiQpu: the luma and chroma prediction entry points. */
  datatype Fns = Fns(yPxx: nat, yBxx: nat, yP00: nat, yB00: nat, cPxx: nat, cPxxL1: nat, cBxx: nat)

  /** Byte offsets from the start of the shader of the mc_filter_* entries of one bit depth. */
  datatype Entries = Entries(yPxx: nat, yBxx: nat, yP00: nat, yB00: nat, cP: nat, cPL1: nat, cB: nat)

  /** qpu_fn: the 32-bit bus address of an entry, the QPU code being first in the code block. */
  function QpuFn(vc: nat, offset: nat): (r: nat)
    ensures r < Word
    ensures vc + offset < Word ==> r == vc + offset
  {
    (vc + offset) % Word
  }

  /** ~k as a 32-bit unsigned value: the marker the source stores before choosing. */
  function Dummy(k: nat): (r: nat)
    requires 1 <= k <= 6
    ensures Word - 7 <= r < Word - 1
  {
    Word - 1 - k
  }

  /** Every entry of a depth, as qpu_fn gives it. */
  function Resolve(vc: nat, e: Entries): Fns
  {
    Fns(QpuFn(vc, e.yPxx), QpuFn(vc, e.yBxx), QpuFn(vc, e.yP00), QpuFn(vc, e.yB00),
        QpuFn(vc, e.cP), QpuFn(vc, e.cPL1), QpuFn(vc, e.cB))
  }

  /**
   * rpi_hevc_qpu_init_fn on a table holding `prev`: the 8-bit or 10-bit
   * entries with 0, and for any other depth -1 with the markers ~1 .. ~6 in
   * all fields but c_pxx_l1, which keeps its old value.
   */
  function InitFn(prev: Fns, vc: nat, e8: Entries, e10: Entries, bitDepth: nat): (r: (int, Fns))
    ensures r.0 == 0 <==> bitDepth == 8 || bitDepth == 10
    ensures r.0 == 0 || r.0 == -1
    ensures bitDepth == 8 ==> r.1 == Resolve(vc, e8)
    ensures bitDepth == 10 ==> r.1 == Resolve(vc, e10)
    ensures r.0 == -1 ==>
      r.1.cPxxL1 == prev.cPxxL1 &&
      r.1.yPxx == Dummy(1) && r.1.yBxx == Dummy(2) && r.1.yP00 == Dummy(3) &&
      r.1.yB00 == Dummy(4) && r.1.cPxx == Dummy(5) && r.1.cBxx == Dummy(6)
  {
    var dummy := Fns(Dummy(1), Dummy(2), Dummy(3), Dummy(4), Dummy(5), prev.cPxxL1, Dummy(6));
    if bitDepth == 8 then (0, Resolve(vc, e8))
    else if bitDepth == 10 then (0, Resolve(vc, e10))
    else (-1, dummy)
  }

  /**
   * With the code block and every entry inside the 32-bit bus space below
   * the markers, a successful table holds no marker, so emulation can tell
   * a chosen entry from an unchosen one.
   */
  lemma ChosenAreNotMarkers(prev: Fns, vc: nat, e8: Entries, e10: Entries, bitDepth: nat)
    requires bitDepth == 8 || bitDepth == 10
    requires var e := if bitDepth == 8 then e8 else e10;
      vc + e.yPxx < Word - 7 && vc + e.yBxx < Word - 7 && vc + e.yP00 < Word - 7 &&
      vc + e.yB00 < Word - 7 && vc + e.cP < Word - 7 && vc + e.cB < Word - 7
    ensures var f := InitFn(prev, vc, e8, e10, bitDepth).1;
      f.yPxx < Word - 7 && f.yBxx < Word - 7 && f.yP00 < Word - 7 &&
      f.yB00 < Word - 7 && f.cPxx < Word - 7 && f.cBxx < Word - 7
  {
  }
}
