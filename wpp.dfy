/**
 * The entry-point table of a wavefront-parallel slice, as hls_slice_data_wpp
 * in hevcdec.c turns the coded entry_point_offset_minus1 + 1 values (which
 * count the emulation-prevention bytes of the NAL) into the byte offset and
 * size, in the unescaped NAL buffer, of each substream after the first.
 *
 * The positions of the removed emulation-prevention bytes are an input, as
 * is the byte position where slice data starts.
 */
module Wpp {
  import opened Outcome

  /**
   * The emulation-prevention bytes found in [lo, hi) by the inner loop: the
   * positions are visited in order and each hit pulls the end of the range
   * back by one, as the range is counted in escaped bytes.
   */
  function Skipped(pos: seq<int>, lo: int, hi: int): nat
  {
    if |pos| == 0 then 0
    else if lo <= pos[0] < hi then 1 + Skipped(pos[1..], lo, hi - 1)
    else Skipped(pos[1..], lo, hi)
  }

  /** No range loses more bytes than it has. */
  lemma {:induction false} SkippedBound(pos: seq<int>, lo: int, hi: int)
    ensures Skipped(pos, lo, hi) <= if hi > lo then hi - lo else 0
    decreases |pos|
  {
    if |pos| > 0 {
      if lo <= pos[0] < hi {
        SkippedBound(pos[1..], lo, hi - 1);
      } else {
        SkippedBound(pos[1..], lo, hi);
      }
    }
  }

  /** The inner j loop: count the skipped bytes of one substream. */
  method CountSkipped(pos: seq<int>, offset: int, epo: int) returns (cmpt: nat)
    ensures cmpt == Skipped(pos, offset, offset + epo)
  {
    cmpt := 0;
    var startheader := offset + epo;
    var j := 0;
    while j < |pos|
      invariant 0 <= j <= |pos|
      invariant startheader == offset + epo - cmpt
      invariant cmpt + Skipped(pos[j..], offset, startheader) == Skipped(pos, offset, offset + epo)
    {
      assert pos[j..][1..] == pos[j + 1..];
      if pos[j] >= offset && pos[j] < startheader {
        startheader := startheader - 1;
        cmpt := cmpt + 1;
      }
      j := j + 1;
    }
  }

  /** The unescaped start of substream i: the first at o0, each next one after its predecessor's bytes. */
  function Start(epo: seq<nat>, pos: seq<int>, o0: int, i: nat): int
    requires i <= |epo|
    decreases i, 1
  {
    if i == 0 then o0
    else Start(epo, pos, o0, i - 1) + epo[i - 1] - Cmpt(epo, pos, o0, i - 1)
  }

  /** The emulation-prevention bytes inside substream k. */
  function Cmpt(epo: seq<nat>, pos: seq<int>, o0: int, k: nat): nat
    requires k < |epo|
    decreases k + 1, 0
  {
    Skipped(pos, Start(epo, pos, o0, k), Start(epo, pos, o0, k) + epo[k])
  }

  /** The offsets and sizes of substreams 1 .. num_entry_point_offsets. */
  datatype Entries = Entries(offset: seq<int>, size: seq<int>)

  /** The slice's rows would run past the last CTB of the picture. */
  predicate AddrOverrun(sliceCtbAddrRs: nat, num: nat, ctbWidth: nat, ctbHeight: nat)
  {
    sliceCtbAddrRs + num * ctbWidth >= ctbWidth * ctbHeight
  }

  /**
   * hls_slice_data_wpp's entry-point computation for num >= 1 entry points
   * (it is only called with some), where o0 is the byte where slice data
   * starts and length the NAL's unescaped size.
   */
  method EntryPoints(sliceCtbAddrRs: nat, ctbWidth: nat, ctbHeight: nat,
                     epo: seq<nat>, pos: seq<int>, o0: int, length: int) returns (r: Result<Entries>)
    requires |epo| >= 1
    ensures r.Err? <==> AddrOverrun(sliceCtbAddrRs, |epo|, ctbWidth, ctbHeight) ||
                        length < Start(epo, pos, o0, |epo|)
    ensures r.Err? ==> r.error == InvalidData
    ensures r.Ok? ==>
      var n := |epo|;
      |r.value.offset| == n && |r.value.size| == n &&
      (forall k :: 0 <= k < n ==> r.value.offset[k] == Start(epo, pos, o0, k + 1)) &&
      (forall k :: 0 <= k < n - 1 ==> r.value.size[k] == epo[k + 1] - Cmpt(epo, pos, o0, k + 1)) &&
      r.value.size[n - 1] == length - r.value.offset[n - 1]
  {
    var n := |epo|;
    if AddrOverrun(sliceCtbAddrRs, n, ctbWidth, ctbHeight) {
      return Err(InvalidData);
    }
    var offset := o0;
    var cmpt := CountSkipped(pos, offset, epo[0]);
    var offs: seq<int> := [];
    var sizes: seq<int> := [];
    var i := 1;
    while i < n
      invariant 1 <= i <= n
      invariant offset == Start(epo, pos, o0, i - 1) && cmpt == Cmpt(epo, pos, o0, i - 1)
      invariant |offs| == i - 1 && |sizes| == i - 1
      invariant forall k :: 0 <= k < i - 1 ==> offs[k] == Start(epo, pos, o0, k + 1)
      invariant forall k :: 0 <= k < i - 1 ==> sizes[k] == epo[k + 1] - Cmpt(epo, pos, o0, k + 1)
    {
      offset := offset + (epo[i - 1] - cmpt);
      cmpt := CountSkipped(pos, offset, epo[i]);
      sizes := sizes + [epo[i] - cmpt];
      offs := offs + [offset];
      i := i + 1;
    }
    offset := offset + epo[n - 1] - cmpt;
    if length < offset {
      return Err(InvalidData);
    }
    sizes := sizes + [length - offset];
    offs := offs + [offset];
    return Ok(Entries(offs, sizes));
  }

  /**
   * Substreams 1 .. num tile the rest of the NAL: each starts where the
   * previous one ends, the last ends at the NAL's length, and no size is
   * negative.
   */
  lemma EntriesTile(epo: seq<nat>, pos: seq<int>, o0: int, length: int, e: Entries)
    requires |epo| >= 1 && length >= Start(epo, pos, o0, |epo|)
    requires |e.offset| == |epo| && |e.size| == |epo|
    requires forall k :: 0 <= k < |epo| ==> e.offset[k] == Start(epo, pos, o0, k + 1)
    requires forall k :: 0 <= k < |epo| - 1 ==> e.size[k] == epo[k + 1] - Cmpt(epo, pos, o0, k + 1)
    requires e.size[|epo| - 1] == length - e.offset[|epo| - 1]
    ensures forall k :: 0 <= k < |epo| - 1 ==> e.offset[k] + e.size[k] == e.offset[k + 1]
    ensures e.offset[|epo| - 1] + e.size[|epo| - 1] == length
    ensures forall k :: 0 <= k < |epo| ==> e.size[k] >= 0
  {
    forall k | 0 <= k < |epo| - 1
      ensures e.size[k] >= 0
    {
      var s := Start(epo, pos, o0, k + 1);
      SkippedBound(pos, s, s + epo[k + 1]);
    }
  }

  /** The sum of the first i coded offsets. */
  function SumPrefix(epo: seq<nat>, i: nat): int
    requires i <= |epo|
  {
    if i == 0 then 0 else SumPrefix(epo, i - 1) + epo[i - 1]
  }

  /**
   * Without emulation-prevention bytes every substream is exactly its coded
   * size: substream i starts the sum of the first i offsets past the start.
   */
  lemma {:induction false} NoSkippedBytes(epo: seq<nat>, o0: int, i: nat)
    requires i <= |epo|
    ensures Start(epo, [], o0, i) == o0 + SumPrefix(epo, i)
  {
    if i > 0 {
      NoSkippedBytes(epo, o0, i - 1);
    }
  }
}
