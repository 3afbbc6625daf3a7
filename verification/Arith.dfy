/** Integer facts shared by the kernels: fixed-width wrap-around, remainders and block offsets. */
module Arith {

  /** Two's-complement wrap-around of an exact result to a 16-bit lane. */
  function Wrap16(x: int): (r: int)
    ensures -0x8000 <= r < 0x8000
    ensures -0x8000 <= x < 0x8000 ==> r == x
    ensures (r - x) % 0x1_0000 == 0
  {
    (x + 0x8000) % 0x1_0000 - 0x8000
  }

  function Abs(x: real): real {
    if x < 0.0 then -x else x
  }

  function Min(a: nat, b: nat): nat {
    if a < b then a else b
  }

  lemma DivModUnique(x: int, d: int, q: int, r: int)
    requires 0 < d && 0 <= r < d && x == q * d + r
    ensures x / d == q && x % d == r
  {
    var e := x / d - q;
    assert e * d == r - x % d by {
      assert x == (x / d) * d + x % d;
    }
    MultipleBound(e, d);
  }

  /** A nonzero multiple of d is at least d away from zero. */
  lemma MultipleBound(e: int, d: int)
    requires 0 < d
    ensures e >= 1 ==> e * d >= d
    ensures e <= -1 ==> e * d <= -d
  {
  }

  /** Adding two residues wraps at most once. */
  lemma AddMod(a: nat, b: nat, z: nat)
    requires a < z && b <= z
    ensures (a + b) % z == if a + b < z then a + b else a + b - z
  {
    if a + b < z {
      DivModUnique(a + b, z, 0, a + b);
    } else {
      DivModUnique(a + b, z, 1, a + b - z);
    }
  }

  /** A smaller block index gives a block that ends before the larger one starts. */
  lemma BlockOrder(i: nat, j: nat, w: nat)
    requires i < j
    ensures i * w + w <= j * w
  {
    assert j * w == i * w + (j - i) * w;
    assert (j - i) * w >= w by {
      assert (j - i) * w == (j - i - 1) * w + w;
      NonNeg(j - i - 1, w);
    }
  }

  lemma NonNeg(a: nat, b: nat)
    ensures a * b >= 0
  {
  }

  /** Bound of the public soft values. */
  const LLR_CLIP: int := 5120

  /** Launched cores. */
  const BLOCK_DIM: nat := 4

  /** Core number of a launched block: the block number with bit 1 flipped. */
  function CoreOf(raw: nat): (core: nat)
    requires raw < 4
    ensures core < 4
  {
    if raw < 2 then raw + 2 else raw - 2
  }

  /** Quotient and remainder of naturals are natural. */
  lemma QuotientNat(x: nat, d: nat)
    requires d > 0
    ensures x / d >= 0 && 0 <= x % d < d
  {
  }

  /** Nothing outside from..to has changed. */
  ghost predicate KeptOutside<T>(now: seq<T>, was: seq<T>, from: nat, to: nat) {
    && |now| == |was|
    && forall k :: 0 <= k < |was| && !(from <= k < to) ==> now[k] == was[k]
  }
}
