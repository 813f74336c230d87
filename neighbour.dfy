/**
 * The per-CTB neighbour and boundary flags of hls_decode_neighbour in
 * hevcdec.c: whether the left, upper, upper-left and upper-right CTBs may be
 * used for prediction (same slice, same tile), which slice or tile
 * boundaries the CTB touches, where the current tile ends, and the record of
 * the CTB's slice address.
 *
 * CTB positions are given as a column and a row of the CTB grid; the sample
 * position x_ctb is the column times the CTB size, so x_ctb > 0 exactly when
 * the column is not 0.
 */
module Neighbour {
  import opened Bits

  /** The picture and PPS tables the derivation reads. */
  datatype PicCtx = PicCtx(
    ctbWidth: nat,
    log2CtbSize: nat,
    width: nat,
    height: nat,
    wpp: bool,
    tiles: bool,
    ctbAddrTsToRs: seq<nat>,
    ctbAddrRsToTs: seq<nat>,
    tileId: seq<int>,
    colIdxX: seq<nat>,
    columnWidth: seq<nat>)

  /** Tables of one size covering the grid, each mapping into range. */
  predicate CtxOk(c: PicCtx)
  {
    c.ctbWidth >= 1 &&
    |c.ctbAddrRsToTs| == |c.ctbAddrTsToRs| && |c.tileId| == |c.ctbAddrTsToRs| &&
    (forall i :: 0 <= i < |c.ctbAddrRsToTs| ==> c.ctbAddrRsToTs[i] < |c.tileId|) &&
    (forall i :: 0 <= i < |c.ctbAddrTsToRs| ==> c.ctbAddrTsToRs[i] < |c.ctbAddrRsToTs|) &&
    |c.colIdxX| == c.ctbWidth &&
    (forall i :: 0 <= i < |c.colIdxX| ==> c.colIdxX[i] < |c.columnWidth|)
  }

  /** BOUNDARY_LEFT_SLICE, BOUNDARY_LEFT_TILE, BOUNDARY_UPPER_SLICE, BOUNDARY_UPPER_TILE. */
  datatype Boundary = Boundary(leftSlice: bool, leftTile: bool, upperSlice: bool, upperTile: bool)

  /** lc->boundary_flags as a bit mask. */
  function BoundaryMask(b: Boundary): (m: nat)
    ensures m < 16
    ensures (m % 2 == 1) == b.leftSlice && ((m / 2) % 2 == 1) == b.leftTile
    ensures ((m / 4) % 2 == 1) == b.upperSlice && ((m / 8) % 2 == 1) == b.upperTile
  {
    (if b.leftSlice then 1 else 0) + (if b.leftTile then 2 else 0) +
    (if b.upperSlice then 4 else 0) + (if b.upperTile then 8 else 0)
  }

  /** The local-context fields the derivation sets. */
  datatype Local = Local(
    firstQpGroup: bool,
    endOfTilesX: int,
    endOfTilesY: int,
    boundary: Boundary,
    ctbLeft: bool,
    ctbUp: bool,
    ctbUpRight: bool,
    ctbUpLeft: bool)

  /** The CTB at (col, row) with tile-scan address ts, raster address rs = row * width + col. */
  predicate PosOk(c: PicCtx, col: nat, row: nat, ts: nat)
  {
    CtxOk(c) && col < c.ctbWidth && ts < |c.ctbAddrTsToRs| &&
    c.ctbAddrTsToRs[ts] == row * c.ctbWidth + col
  }

  lemma RowStart(w: nat, col: nat, row: nat)
    requires row >= 1
    ensures row * w + col >= w + col
  {
  }

  /**
   * hls_decode_neighbour for the CTB at (col, row), given the slice address
   * and the slice-address table before the CTB's own entry is written; the
   * tile end and the first-QP-group flag carry over from `prev` when the
   * source leaves them alone. Returns the new local fields and the table.
   */
  function DecodeNeighbour(c: PicCtx, col: nat, row: nat, ts: nat, sliceAddr: int,
                           tab: seq<int>, prev: Local): (r: (Local, seq<int>))
    requires PosOk(c, col, row, ts) && |tab| == |c.ctbAddrRsToTs|
    ensures |r.1| == |tab|
  {
    var ctbSize := Pow2(c.log2CtbSize);
    var rs := c.ctbAddrTsToRs[ts];
    var inSlice := rs - sliceAddr;
    var t := tab[rs := sliceAddr];
    var tileStart := c.tiles && ts > 0 && c.tileId[ts] != c.tileId[ts - 1];
    var fq0 :=
      if c.wpp then col == 0 || prev.firstQpGroup
      else if c.tiles then tileStart || prev.firstQpGroup
      else prev.firstQpGroup;
    var ex :=
      if c.wpp then c.width
      else if c.tiles then
        (if tileStart then col * ctbSize + c.columnWidth[c.colIdxX[col]] * ctbSize else prev.endOfTilesX)
      else c.width;
    var ey := if row * ctbSize + ctbSize < c.height then row * ctbSize + ctbSize else c.height;
    assert row >= 1 ==> rs >= c.ctbWidth + col by {
      if row >= 1 {
        RowStart(c.ctbWidth, col, row);
      }
    }
    var b :=
      if c.tiles then
        Boundary(
          col > 0 && t[rs] != t[rs - 1],
          col > 0 && c.tileId[ts] != c.tileId[c.ctbAddrRsToTs[rs - 1]],
          row > 0 && t[rs] != t[rs - c.ctbWidth],
          row > 0 && c.tileId[ts] != c.tileId[c.ctbAddrRsToTs[rs - c.ctbWidth]])
      else Boundary(inSlice <= 0, false, inSlice < c.ctbWidth, false);
    var left := col > 0 && inSlice > 0 && !b.leftTile;
    var up := row > 0 && inSlice >= c.ctbWidth && !b.upperTile;
    var upRight := row > 0 && inSlice + 1 >= c.ctbWidth &&
                   c.tileId[ts] == c.tileId[c.ctbAddrRsToTs[rs + 1 - c.ctbWidth]];
    var upLeft := col > 0 && row > 0 && inSlice - 1 >= c.ctbWidth &&
                  c.tileId[ts] == c.tileId[c.ctbAddrRsToTs[rs - 1 - c.ctbWidth]];
    (Local(fq0, ex, ey, b, left, up, upRight, upLeft), t)
  }

  /**
   * A neighbour flagged usable lies inside the picture, and in the current
   * slice at or after the slice's first CTB: left needs a column to the left
   * and the previous raster CTB in the slice, up a row above and the CTB
   * above in the slice, and the diagonal ones the same of their CTBs.
   */
  lemma NeighboursInSlice(c: PicCtx, col: nat, row: nat, ts: nat, sliceAddr: int, tab: seq<int>, prev: Local)
    requires PosOk(c, col, row, ts) && |tab| == |c.ctbAddrRsToTs|
    ensures var l := DecodeNeighbour(c, col, row, ts, sliceAddr, tab, prev).0;
      var rs := c.ctbAddrTsToRs[ts];
      (l.ctbLeft ==> col > 0 && rs - 1 >= sliceAddr) &&
      (l.ctbUp ==> row > 0 && rs - c.ctbWidth >= sliceAddr) &&
      (l.ctbUpLeft ==> col > 0 && row > 0 && rs - 1 - c.ctbWidth >= sliceAddr) &&
      (l.ctbUpRight ==> row > 0 && rs + 1 - c.ctbWidth >= sliceAddr)
  {
  }

  /**
   * Without tiles the left and upper neighbours are usable exactly when they
   * exist and no slice boundary separates them from the CTB.
   */
  lemma NoTilesAvailability(c: PicCtx, col: nat, row: nat, ts: nat, sliceAddr: int, tab: seq<int>, prev: Local)
    requires PosOk(c, col, row, ts) && |tab| == |c.ctbAddrRsToTs| && !c.tiles
    ensures var l := DecodeNeighbour(c, col, row, ts, sliceAddr, tab, prev).0;
      (l.ctbLeft <==> col > 0 && !l.boundary.leftSlice) &&
      (l.ctbUp <==> row > 0 && !l.boundary.upperSlice) &&
      !l.boundary.leftTile && !l.boundary.upperTile
  {
  }

  /**
   * With tiles a usable left or upper neighbour is in the same tile, and
   * the CTB's own slice address is recorded.
   */
  lemma TilesAvailability(c: PicCtx, col: nat, row: nat, ts: nat, sliceAddr: int, tab: seq<int>, prev: Local)
    requires PosOk(c, col, row, ts) && |tab| == |c.ctbAddrRsToTs|
    ensures var r := DecodeNeighbour(c, col, row, ts, sliceAddr, tab, prev);
      var rs := c.ctbAddrTsToRs[ts];
      r.1 == tab[rs := sliceAddr] &&
      (c.tiles && r.0.ctbLeft ==> c.tileId[c.ctbAddrRsToTs[rs - 1]] == c.tileId[ts]) &&
      (c.tiles && r.0.ctbUp ==> c.tileId[c.ctbAddrRsToTs[rs - c.ctbWidth]] == c.tileId[ts])
  {
  }

  /**
   * end_of_tiles_x is the picture width under wavefront parallel processing
   * and without tiles; the first CTB of a new tile sets it to the tile's
   * right edge and opens a QP group, and otherwise the previous values carry
   * over. A row start opens a QP group under wavefronts, and an open QP group
   * is never closed here.
   */
  lemma TileEndAndQpGroup(c: PicCtx, col: nat, row: nat, ts: nat, sliceAddr: int, tab: seq<int>, prev: Local)
    requires PosOk(c, col, row, ts) && |tab| == |c.ctbAddrRsToTs|
    ensures var l := DecodeNeighbour(c, col, row, ts, sliceAddr, tab, prev).0;
      var tileStart := c.tiles && ts > 0 && c.tileId[ts] != c.tileId[ts - 1];
      (prev.firstQpGroup ==> l.firstQpGroup) &&
      (c.wpp ==> l.endOfTilesX == c.width && (l.firstQpGroup <==> col == 0 || prev.firstQpGroup)) &&
      (!c.wpp && !c.tiles ==> l.endOfTilesX == c.width && l.firstQpGroup == prev.firstQpGroup) &&
      (!c.wpp && tileStart ==>
         l.firstQpGroup && l.endOfTilesX == (col + c.columnWidth[c.colIdxX[col]]) * Pow2(c.log2CtbSize)) &&
      (!c.wpp && c.tiles && !tileStart ==>
         l.endOfTilesX == prev.endOfTilesX && l.firstQpGroup == prev.firstQpGroup)
  {
  }

  /** The tile's last sample row is the CTB's last row, clipped to the picture. */
  lemma EndOfTilesY(c: PicCtx, col: nat, row: nat, ts: nat, sliceAddr: int, tab: seq<int>, prev: Local)
    requires PosOk(c, col, row, ts) && |tab| == |c.ctbAddrRsToTs|
    ensures var l := DecodeNeighbour(c, col, row, ts, sliceAddr, tab, prev).0;
      l.endOfTilesY <= c.height &&
      l.endOfTilesY <= (row + 1) * Pow2(c.log2CtbSize) &&
      (l.endOfTilesY == c.height || l.endOfTilesY == (row + 1) * Pow2(c.log2CtbSize))
  {
  }
}
