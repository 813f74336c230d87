/**
 * The band of picture rows pass1 invalidates in the cache after inter
 * prediction of a job (worker_core in hevcdec.c): from the top of the
 * highest CTB row the job deblocks to the bottom of its lowest, clipped to
 * the picture height.
 */
module FlushWindow {
  import opened Bits

  /**
   * flush_start and flush_count for the y_ctb values of the job's deblock
   * list; blks is the whole list array, of which the first n entries are
   * the job's. Entry 0 is read even when n is 0.
   */
  method Window(blks: seq<nat>, n: nat, log2CtbSize: nat, height: nat) returns (start: nat, count: int)
    requires 1 <= |blks| && n <= |blks|
    requires forall i :: 0 <= i < |blks| ==> blks[i] < height
    ensures var m := if n == 0 then 1 else n;
      (exists i :: 0 <= i < m && blks[i] == start) &&
      (forall i :: 0 <= i < m ==> start <= blks[i])
    ensures count > 0
    ensures forall i :: 0 <= i < n ==>
      start <= blks[i] && blks[i] + Min(Pow2(log2CtbSize), height - blks[i]) <= start + count
    ensures var m := if n == 0 then 1 else n;
      exists i :: 0 <= i < m && start + count == Min(blks[i] + Pow2(log2CtbSize), height)
  {
    var high := blks[0];
    start := high;
    var i := 1;
    while i < n
      invariant 1 <= i <= if n == 0 then 1 else n
      invariant exists k :: 0 <= k < i && blks[k] == start
      invariant exists k :: 0 <= k < i && blks[k] == high
      invariant forall k :: 0 <= k < i ==> start <= blks[k] <= high
    {
      var y := blks[i];
      start := if y < start then y else start;
      high := if y > high then y else high;
      i := i + 1;
    }
    count := Min(high + Pow2(log2CtbSize), height) - start;
  }

  function Min(a: int, b: int): int
  {
    if a < b then a else b
  }
}
