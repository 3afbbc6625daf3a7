/** Bits of natural numbers. */
module Bits {
  import opened Arith

  const TWO_64: nat := 0x1_0000_0000_0000_0000

  function Pow2(n: nat): (p: nat)
    ensures p >= 1
  {
    if n == 0 then 1 else 2 * Pow2(n - 1)
  }

  /** Bit n of c. */
  function BitAt(c: nat, n: nat): bool {
    if n == 0 then c % 2 == 1 else BitAt(c / 2, n - 1)
  }

  lemma DivideTwice(c: nat, a: nat)
    requires a > 0
    ensures c / (2 * a) == c / 2 / a
  {
    var q, r := c / 2 / a, c / 2 % a;
    assert c / 2 == q * a + r && c == 2 * (c / 2) + c % 2;
    DivModUnique(c, 2 * a, q, 2 * r + c % 2);
  }

  /** Bit n is the remainder modulo two of the quotient by 2^n. */
  lemma {:induction false} BitIsQuotient(c: nat, n: nat)
    ensures BitAt(c, n) <==> c / Pow2(n) % 2 == 1
  {
    if n > 0 {
      BitIsQuotient(c / 2, n - 1);
      DivideTwice(c, Pow2(n - 1));
    }
  }

  /** Bitwise or. */
  function BitOr(a: nat, b: nat): nat
    decreases a + b
  {
    if a == 0 then b
    else if b == 0 then a
    else (if a % 2 == 1 || b % 2 == 1 then 1 else 0) + 2 * BitOr(a / 2, b / 2)
  }

  /** Fields that do not overlap may be added instead of combined. */
  lemma {:induction false} OrDisjoint(a: nat, b: nat, n: nat)
    requires b < Pow2(n)
    ensures BitOr(Pow2(n) * a, b) == Pow2(n) * a + b
  {
    if a == 0 {
      assert Pow2(n) * a == 0;
    } else if n > 0 && b > 0 {
      var p := Pow2(n - 1);
      assert Pow2(n) * a == 2 * (p * a);
      assert p * a >= 1;
      OrDisjoint(a, b / 2, n - 1);
    }
  }

  lemma OrHalves(a: nat, b: nat)
    ensures BitOr(a, b) == (if a % 2 == 1 || b % 2 == 1 then 1 else 0) + 2 * BitOr(a / 2, b / 2)
  {
    if a == 0 {
      assert BitOr(0, b / 2) == b / 2;
    } else if b == 0 {
      assert BitOr(a / 2, 0) == a / 2;
    }
  }

  /** Each bit of the result is set if either operand's is. */
  lemma {:induction false} OrIsBitwise(a: nat, b: nat, k: nat)
    ensures BitAt(BitOr(a, b), k) <==> BitAt(a, k) || BitAt(b, k)
  {
    var or, rest := BitOr(a, b), BitOr(a / 2, b / 2);
    OrHalves(a, b);
    assert or / 2 == rest && (or % 2 == 1 <==> a % 2 == 1 || b % 2 == 1);
    if k > 0 {
      OrIsBitwise(a / 2, b / 2, k - 1);
      assert BitAt(or, k) == BitAt(rest, k - 1);
    }
  }

  lemma OrStep(u: nat, b: nat, w: nat, d: nat)
    ensures BitOr(2 * u + b, 2 * w + d)
         == (if b % 2 == 1 || d % 2 == 1 then 1 else 0) + 2 * BitOr(u + b / 2, w + d / 2)
  {
    OrHalves(2 * u + b, 2 * w + d);
    assert (2 * u + b) / 2 == u + b / 2 && (2 * w + d) / 2 == w + d / 2;
  }

  lemma PowTimes(n: nat, x: nat)
    requires n > 0
    ensures Pow2(n) * x == 2 * (Pow2(n - 1) * x) && Pow2(n - 1) * x >= 0
  {
    assert Pow2(n) == 2 * Pow2(n - 1);
  }

  lemma AddHalves(total: nat, bit: nat, rest: nat, low: nat, high: nat)
    requires total == bit + 2 * rest && rest == high + low
    ensures total == 2 * high + (bit + 2 * low)
  {
  }

  /** The low n bits and the rest are combined separately. */
  lemma {:induction false} OrSplits(a: nat, b: nat, c: nat, d: nat, n: nat)
    requires b < Pow2(n) && d < Pow2(n)
    ensures Pow2(n) * a + b >= 0 && Pow2(n) * c + d >= 0
    ensures BitOr(Pow2(n) * a + b, Pow2(n) * c + d) == Pow2(n) * BitOr(a, c) + BitOr(b, d)
  {
    if n == 0 {
      assert b == 0 && d == 0;
    } else {
      PowTimes(n, a);
      PowTimes(n, c);
      PowTimes(n, BitOr(a, c));
      OrSplits(a, b / 2, c, d / 2, n - 1);
      var u: nat, w: nat := Pow2(n - 1) * a, Pow2(n - 1) * c;
      OrStep(u, b, w, d);
      OrHalves(b, d);
      AddHalves(BitOr(2 * u + b, 2 * w + d), if b % 2 == 1 || d % 2 == 1 then 1 else 0, BitOr(u + b / 2, w + d / 2),
                BitOr(b / 2, d / 2), Pow2(n - 1) * BitOr(a, c));
    }
  }

  // ---------- counting ----------

  function Popcount(v: nat): nat {
    if v == 0 then 0 else v % 2 + Popcount(v / 2)
  }

  /** Count the set bits by shifting them out. */
  method Popcount16(value: nat) returns (count: nat)
    ensures count == Popcount(value)
  {
    count := 0;
    var v := value;
    while v != 0
      invariant count + Popcount(v) == Popcount(value)
    {
      count := count + v % 2;
      v := v / 2;
    }
  }

  /** v has bit a set and no other. */
  predicate OneBit(v: nat, a: nat, n: nat) {
    a < n && v == Pow2(a)
  }

  lemma {:induction false} PopcountOne(v: nat, n: nat)
    requires v < Pow2(n)
    ensures Popcount(v) == 0 <==> v == 0
    ensures Popcount(v) == 1 <==> exists a: nat :: OneBit(v, a, n)
  {
    if v > 0 {
      PopcountOne(v / 2, n - 1);
      if Popcount(v) == 1 {
        if v % 2 == 1 {
          assert OneBit(v, 0, n);
        } else {
          var a: nat :| OneBit(v / 2, a, n - 1);
          assert OneBit(v, a + 1, n);
        }
      }
      if exists a: nat :: OneBit(v, a, n) {
        var a: nat :| OneBit(v, a, n);
        if a > 0 {
          assert v % 2 == 0 && OneBit(v / 2, a - 1, n - 1);
        } else {
          assert v == 1;
        }
      }
    }
  }

  /** v has bits a and b set and no others. */
  predicate TwoBits(v: nat, a: nat, b: nat, n: nat) {
    a < b < n && v == Pow2(a) + Pow2(b)
  }

  lemma {:induction false} PopcountTwo(v: nat, n: nat)
    requires v < Pow2(n)
    ensures Popcount(v) == 2 <==> exists a: nat, b: nat :: TwoBits(v, a, b, n)
  {
    if v > 0 {
      PopcountTwo(v / 2, n - 1);
      PopcountOne(v / 2, n - 1);
      if Popcount(v) == 2 {
        TwoFromHalf(v, v / 2, n - 1, n);
      }
      if exists a: nat, b: nat :: TwoBits(v, a, b, n) {
        var a: nat, b: nat :| TwoBits(v, a, b, n);
        assert Pow2(b) == 2 * Pow2(b - 1);
        if a == 0 {
          assert v % 2 == 1 && OneBit(v / 2, b - 1, n - 1);
        } else {
          assert Pow2(a) == 2 * Pow2(a - 1);
          assert TwoBits(v / 2, a - 1, b - 1, n - 1);
        }
      }
    }
  }

  lemma TwoFromHalf(v: nat, half: nat, m: nat, n: nat)
    requires half == v / 2 && n == m + 1
    requires v % 2 == 1 ==> exists a: nat :: OneBit(half, a, m)
    requires v % 2 == 0 ==> exists a: nat, b: nat :: TwoBits(half, a, b, m)
    ensures exists a: nat, b: nat :: TwoBits(v, a, b, n)
  {
    if v % 2 == 1 {
      var a: nat :| OneBit(half, a, m);
      assert TwoBits(v, 0, a + 1, n);
    } else {
      var a: nat, b: nat :| TwoBits(half, a, b, m);
      assert TwoBits(v, a + 1, b + 1, n);
    }
  }

  /** Set bits below position n. */
  function BitsIn(v: nat, n: nat): nat {
    if n == 0 then 0 else (if BitAt(v, n - 1) then 1 else 0) + BitsIn(v, n - 1)
  }

  lemma {:induction false} BitsInShift(v: nat, n: nat)
    ensures BitsIn(v, n + 1) == v % 2 + BitsIn(v / 2, n)
  {
    if n > 0 {
      BitsInShift(v, n - 1);
    }
  }

  /** A number below 2^n has all its set bits below position n. */
  lemma {:induction false} BitsAllBelow(v: nat, n: nat)
    requires v < Pow2(n)
    ensures BitsIn(v, n) == Popcount(v)
  {
    if n == 0 {
      assert v == 0;
    } else {
      BitsInShift(v, n - 1);
      BitsAllBelow(v / 2, n - 1);
    }
  }

  // ---------- exclusive or ----------

  /** Exclusive or of the low n bits. */
  function XorBits(a: nat, b: nat, n: nat): (x: nat)
    ensures x < Pow2(n)
  {
    if n == 0 then 0 else (if a % 2 == b % 2 then 0 else 1) + 2 * XorBits(a / 2, b / 2, n - 1)
  }

  /** Each of the low n bits of the result is set if exactly one operand's is. */
  lemma {:induction false} XorIsBitwise(a: nat, b: nat, n: nat, k: nat)
    requires k < n
    ensures BitAt(XorBits(a, b, n), k) <==> BitAt(a, k) != BitAt(b, k)
  {
    if k > 0 {
      XorIsBitwise(a / 2, b / 2, n - 1, k - 1);
    }
  }

  /** With one operand fixed, exclusive or loses nothing of the other. */
  lemma {:induction false} XorInjective(a: nat, a': nat, b: nat, n: nat)
    requires a < Pow2(n) && a' < Pow2(n) && XorBits(a, b, n) == XorBits(a', b, n)
    ensures a == a'
  {
    if n > 0 {
      XorInjective(a / 2, a' / 2, b / 2, n - 1);
    }
  }

  lemma {:induction false} XorCommutes(a: nat, b: nat, n: nat)
    ensures XorBits(a, b, n) == XorBits(b, a, n)
  {
    if n > 0 {
      XorCommutes(a / 2, b / 2, n - 1);
    }
  }
}
