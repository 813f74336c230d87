/**
 * Integer helpers used across the decoder: powers of two, the clipping
 * helpers av_clip / av_clip_uintp2 / av_mod_uintp2, the arithmetic right
 * shift on signed values, and the PACK2 / xyexp2 macros of hevcdec.c.
 */
module Bits {
  /** 2^32: values stored in a uint32_t are reduced modulo this. */
  const Word: nat := 0x1_0000_0000
  const Half: nat := 0x1_0000

  function Pow2(n: nat): (r: nat)
    ensures r >= 1
  {
    if n == 0 then 1 else 2 * Pow2(n - 1)
  }

  lemma {:induction false} Pow2Add(a: nat, b: nat)
    ensures Pow2(a + b) == Pow2(a) * Pow2(b)
  {
    if a > 0 {
      Pow2Add(a - 1, b);
      assert Pow2(a + b) == 2 * Pow2(a - 1 + b);
    }
  }

  lemma {:induction false} Pow2Monotone(a: nat, b: nat)
    requires a <= b
    ensures Pow2(a) <= Pow2(b)
  {
    if a < b {
      Pow2Monotone(a, b - 1);
    }
  }

  /** av_clip(x, lo, hi) */
  function Clip(x: int, lo: int, hi: int): int
    requires lo <= hi
  {
    if x < lo then lo else if x > hi then hi else x
  }

  /** av_clip_uintp2(x, p): clamp to the unsigned range of p bits. */
  function ClipUintp2(x: int, p: nat): int
  {
    if x < 0 then 0 else if x >= Pow2(p) then Pow2(p) - 1 else x
  }

  /** `x >> k` on a non-negative value. */
  function Shr(x: nat, k: nat): nat
  {
    if k == 0 then x else Shr(x / 2, k - 1)
  }

  /** av_mod_uintp2(x, k) = x & ((1 << k) - 1): the low k bits of x. */
  function ModUintp2(x: nat, k: nat): nat
  {
    if k == 0 then 0 else x % 2 + 2 * ModUintp2(x / 2, k - 1)
  }

  /** A value splits into its shifted-out high part and its low bits. */
  lemma {:induction false} ShrSplit(x: nat, k: nat)
    ensures ModUintp2(x, k) < Pow2(k)
    ensures x == Shr(x, k) * Pow2(k) + ModUintp2(x, k)
  {
    if k > 0 {
      ShrSplit(x / 2, k - 1);
      var q := Shr(x / 2, k - 1);
      var m := ModUintp2(x / 2, k - 1);
      MulDouble(q, Pow2(k - 1));
      assert x / 2 == q * Pow2(k - 1) + m;
      assert x == 2 * (x / 2) + x % 2;
    }
  }

  lemma MulDouble(q: nat, p: nat)
    ensures q * (2 * p) == 2 * (q * p)
  {
  }

  /** `x >> k` is non-zero exactly when x reaches 2^k. */
  lemma ShrPositive(x: nat, k: nat)
    ensures Shr(x, k) >= 1 <==> x >= Pow2(k)
  {
    ShrSplit(x, k);
    var q := Shr(x, k);
    if q >= 1 {
      MulAtLeast(q, Pow2(k));
    }
  }

  lemma MulAtLeast(q: nat, p: nat)
    requires q >= 1
    ensures q * p >= p
  {
  }

  /** `x >> k` on a signed C int: an arithmetic shift rounds toward minus infinity. */
  function Asr(x: int, k: nat): int
    decreases k
  {
    if k == 0 then x else Asr(x / 2, k - 1)
  }

  /**
   * PACK2(hi, lo) = (hi << 16) | (lo & 0xffff), stored as a uint32_t:
   * the low half holds lo's low 16 bits and the high half hi's.
   */
  function Pack2(hi: int, lo: int): (r: nat)
    ensures r < Word
    ensures r % Half == lo % Half
    ensures r / Half == hi % Half
  {
    PackMod(hi, lo % Half);
    PackHalves(hi % Half, lo % Half);
    (hi * Half + lo % Half) % Word
  }

  /** Shifting hi up by 16 bits into a 32-bit word keeps only hi's low half. */
  lemma PackMod(hi: int, l: nat)
    requires l < Half
    ensures (hi * Half + l) % Word == (hi % Half) * Half + l
  {
    var q := hi / Half;
    var h := hi % Half;
    assert hi * Half + l == q * Word + (h * Half + l);
    assert 0 <= h * Half + l < Word;
  }

  /** A 32-bit word made of two halves gives them back. */
  lemma PackHalves(h: nat, l: nat)
    requires h < Half && l < Half
    ensures (h * Half + l) % Half == l && (h * Half + l) / Half == h
  {
  }

  /** xyexp2(x, y) = x << (y * 2): x for every sample of a square of side 2^y. */
  function XyExp2(x: nat, y: nat): (r: nat)
    ensures r == x * (Pow2(y) * Pow2(y))
  {
    Pow2Add(y, y);
    x * Pow2(2 * y)
  }
}
