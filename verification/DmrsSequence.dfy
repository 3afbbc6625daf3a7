/** Reference-signal sequences: the transmitter's GF(2) basis against the receiver's direct recurrence. */
module DmrsSequence {
  import opened Arith
  import opened Bits
  import opened Gold

  const N_RE: nat := 798
  const N_PAD: nat := 896
  const PLANE: nat := 1792
  const N_BITS: nat := 31
  const TWO_17: nat := 0x2_0000
  const TWO_31: nat := 0x8000_0000
  const TWO_32: nat := 0x1_0000_0000

  // ---------- linearity ----------

  function XorAll(a: Start, b: Start): (c: Start)
    ensures forall i :: 0 <= i < 31 ==> c[i] == Xor(a[i], b[i])
  {
    seq(31, i requires 0 <= i < 31 => Xor(a[i], b[i]))
  }

  /** The second register is linear in its start bits. */
  lemma {:induction false} RegisterIsLinear(a: Start, b: Start, n: nat)
    ensures X2(XorAll(a, b), n) == Xor(X2(a, n), X2(b, n))
  {
    if n >= 31 {
      RegisterIsLinear(a, b, n - 28);
      RegisterIsLinear(a, b, n - 29);
      RegisterIsLinear(a, b, n - 30);
      RegisterIsLinear(a, b, n - 31);
    }
  }

  lemma {:induction false} ZeroStaysZero(z: Start, n: nat)
    requires forall i :: 0 <= i < 31 ==> !z[i]
    ensures !X2(z, n)
  {
    if n >= 31 {
      ZeroStaysZero(z, n - 28);
      ZeroStaysZero(z, n - 29);
      ZeroStaysZero(z, n - 30);
      ZeroStaysZero(z, n - 31);
    }
  }

  /** The i-th unit start. */
  function Unit(i: nat): (s: Start)
    ensures forall j :: 0 <= j < 31 ==> s[j] == (j == i)
  {
    seq(31, j => j == i)
  }

  /** The first m start bits, the rest cleared. */
  function Front(start: Start, m: nat): (s: Start)
    ensures forall j :: 0 <= j < 31 ==> s[j] == (j < m && start[j])
  {
    seq(31, j requires 0 <= j < 31 => j < m && start[j])
  }

  /** Element n of the units selected by the first m start bits, combined. */
  function Selected(start: Start, m: nat, n: nat): bool
    requires m <= 31
  {
    if m == 0 then false
    else if start[m - 1] then Xor(Selected(start, m - 1, n), X2(Unit(m - 1), n))
    else Selected(start, m - 1, n)
  }

  lemma {:induction false} SelectedIsFront(start: Start, m: nat, n: nat)
    requires m <= 31
    ensures Selected(start, m, n) == X2(Front(start, m), n)
  {
    if m == 0 {
      ZeroStaysZero(Front(start, 0), n);
    } else {
      SelectedIsFront(start, m - 1, n);
      if start[m - 1] {
        RegisterIsLinear(Front(start, m - 1), Unit(m - 1), n);
        assert Front(start, m) == XorAll(Front(start, m - 1), Unit(m - 1));
      } else {
        assert Front(start, m) == Front(start, m - 1);
      }
    }
  }

  /** The whole register is the combination of the units its start bits select. */
  lemma BasisSpans(start: Start, n: nat)
    ensures Selected(start, 31, n) == X2(start, n)
  {
    SelectedIsFront(start, 31, n);
    assert Front(start, 31) == start;
  }

  // ---------- the transmitter's tables ----------

  /** Bit j of 1 << i. */
  lemma {:induction false} ShiftedOne(i: nat, j: nat)
    ensures BitAt(Pow2(i), j) == (i == j)
  {
    if j > 0 {
      if i > 0 {
        assert Pow2(i) / 2 == Pow2(i - 1);
        ShiftedOne(i - 1, j - 1);
      } else {
        ZeroBits(j - 1);
      }
    }
  }

  lemma {:induction false} ZeroBits(j: nat)
    ensures !BitAt(0, j)
  {
    if j > 0 {
      ZeroBits(j - 1);
    }
  }

  /** Position of element e of a sequence in a plane: even elements first, odd ones after the padding. */
  function PlaneSlot(e: nat): nat {
    if e % 2 == 0 then e / 2 else N_PAD + e / 2
  }

  /** A plane holds the first 2 * N_RE elements of a sequence, split, with cleared padding. */
  ghost predicate PlaneHolds(plane: seq<bool>, s: seq<bool>) {
    && |plane| == 1792 && |s| >= 1596
    && (forall k: nat :: k < 798 ==> plane[k] == s[2 * k] && plane[896 + k] == s[2 * k + 1])
    && (forall p: nat :: 798 <= p < 896 || 1694 <= p < 1792 ==> !plane[p])
  }

  method Put(s: seq<bool>) returns (plane: seq<bool>)
    requires |s| >= 2 * N_RE
    ensures PlaneHolds(plane, s)
  {
    plane := seq(PLANE, p requires 0 <= p < PLANE =>
      if p < N_RE then s[2 * p]
      else if N_PAD <= p < N_PAD + N_RE then s[2 * (p - N_PAD) + 1]
      else false);
  }

  ghost predicate Tail1(s: seq<bool>) {
    |s| == 2 * N_RE && forall k: nat :: k < 2 * N_RE ==> s[k] == X1(k + N_C)
  }

  ghost predicate Tail2(s: seq<bool>, start: Start) {
    |s| == 2 * N_RE && forall k: nat :: k < 2 * N_RE ==> s[k] == X2(start, k + N_C)
  }

  ghost predicate FirstPlane(plane: seq<bool>) {
    exists s: seq<bool> :: Tail1(s) && PlaneHolds(plane, s)
  }

  ghost predicate BasisPlane(plane: seq<bool>, i: nat) {
    exists s: seq<bool> :: Tail2(s, Unit(i)) && PlaneHolds(plane, s)
  }

  /** One basis plane: the second register started from 1 << i alone. */
  method BuildBasisPlane(i: nat) returns (plane: seq<bool>)
    requires i < N_BITS
    ensures BasisPlane(plane, i)
  {
    var total := 2 * N_RE + N_C;
    var start := seq(31, j requires 0 <= j < 31 => BitAt(Pow2(i), j));
    forall j | 0 <= j < 31
      ensures start[j] == Unit(i)[j]
    {
      ShiftedOne(i, j);
    }
    assert start == Unit(i);
    var x2 := FillSecond(start, total);
    ghost var seconds := x2[..];
    var s := x2[N_C..N_C + 2 * N_RE];
    forall k: nat | k < 2 * N_RE
      ensures s[k] == X2(Unit(i), k + N_C)
    {
      assert s[k] == seconds[k + N_C];
    }
    plane := Put(s);
    assert Tail2(s, Unit(i));
  }

  /** The first register's plane and the 31 basis planes of the second. */
  method BuildDmrsMatrix() returns (gmat: seq<seq<bool>>, g1: seq<bool>)
    ensures FirstPlane(g1) && |gmat| == N_BITS && forall i: nat :: i < N_BITS ==> BasisPlane(gmat[i], i)
  {
    var x1 := FillFirst(2 * N_RE + N_C);
    ghost var firsts := x1[..];
    var s := x1[N_C..N_C + 2 * N_RE];
    forall k: nat | k < 2 * N_RE
      ensures s[k] == X1(k + N_C)
    {
      assert s[k] == firsts[k + N_C];
    }
    g1 := Put(s);
    assert Tail1(s);
    gmat := [];
    for i := 0 to N_BITS
      invariant |gmat| == i && forall i': nat :: i' < i ==> BasisPlane(gmat[i'], i')
    {
      var plane := BuildBasisPlane(i);
      gmat := gmat + [plane];
    }
  }

  /** g1 combined with the basis rows that the first m bits of c select, at one plane position. */
  function Composed(gmat: seq<seq<bool>>, g1: seq<bool>, c: nat, m: nat, p: nat): bool
    requires m <= |gmat| && p < |g1| && forall i :: 0 <= i < |gmat| ==> |gmat[i]| == |g1|
  {
    if m == 0 then g1[p]
    else if BitAt(c, m - 1) then Xor(Composed(gmat, g1, c, m - 1, p), gmat[m - 1][p])
    else Composed(gmat, g1, c, m - 1, p)
  }

  lemma PlaneElement(plane: seq<bool>, s: seq<bool>, e: nat)
    requires PlaneHolds(plane, s) && e < 2 * N_RE
    ensures PlaneSlot(e) < PLANE && plane[PlaneSlot(e)] == s[e]
  {
    var k := e / 2;
    assert plane[k] == s[2 * k] && plane[N_PAD + k] == s[2 * k + 1];
  }

  lemma {:induction false} ComposedUpTo(gmat: seq<seq<bool>>, g1: seq<bool>, c: nat, m: nat, e: nat)
    requires FirstPlane(g1) && |gmat| == N_BITS && m <= N_BITS && e < 2 * N_RE
    requires forall i: nat :: i < N_BITS ==> BasisPlane(gmat[i], i)
    requires PlaneSlot(e) < |g1| && forall i :: 0 <= i < |gmat| ==> |gmat[i]| == |g1|
    ensures Composed(gmat, g1, c, m, PlaneSlot(e)) == Xor(X1(e + N_C), Selected(StartOf(c), m, e + N_C))
  {
    if m == 0 {
      var s: seq<bool> :| Tail1(s) && PlaneHolds(g1, s);
      PlaneElement(g1, s, e);
    } else {
      ComposedUpTo(gmat, g1, c, m - 1, e);
      assert BasisPlane(gmat[m - 1], m - 1);
      var s: seq<bool> :| Tail2(s, Unit(m - 1)) && PlaneHolds(gmat[m - 1], s);
      PlaneElement(gmat[m - 1], s, e);
    }
  }

  lemma PlanesAlike(gmat: seq<seq<bool>>, g1: seq<bool>)
    requires FirstPlane(g1) && |gmat| == N_BITS && forall i: nat :: i < N_BITS ==> BasisPlane(gmat[i], i)
    ensures |g1| == PLANE && forall i :: 0 <= i < |gmat| ==> |gmat[i]| == |g1|
  {
    forall i: nat | i < |gmat|
      ensures |gmat[i]| == |g1|
    {
      assert BasisPlane(gmat[i], i);
    }
  }

  /** Superposition: for every initial value, the selected basis rows and g1 combine to the sequence
      the receiver generates directly, element by element. */
  lemma Superposition(gmat: seq<seq<bool>>, g1: seq<bool>, c: nat, e: nat)
    requires FirstPlane(g1) && |gmat| == N_BITS && e < 2 * N_RE
    requires forall i: nat :: i < N_BITS ==> BasisPlane(gmat[i], i)
    ensures PlaneSlot(e) < |g1| && forall i :: 0 <= i < |gmat| ==> |gmat[i]| == |g1|
    ensures Composed(gmat, g1, c, N_BITS, PlaneSlot(e)) == Element(c, e)
  {
    PlanesAlike(gmat, g1);
    ComposedUpTo(gmat, g1, c, N_BITS, e);
    BasisSpans(StartOf(c), e + N_C);
  }

  // ---------- initial values ----------

  /** Section 6.4.1.1.1.1 of TS 38.211, over unbounded integers. */
  function Cinit(slot: nat, l: nat, nId: nat, nScid: nat): (c: nat)
    ensures c < TWO_31
  {
    NonNeg(14 * slot + l + 1, 2 * nId + 1);
    (TWO_17 * ((14 * slot + l + 1) * (2 * nId + 1)) + 2 * nId + nScid) % TWO_31
  }

  function Mod64(x: int): nat {
    x % TWO_64
  }

  /** The transmitter's formula: 16-bit identities promoted before the 64-bit products. */
  function TxCinit(slot: nat, l: nat, nId: nat, nScid: nat): nat
    requires nId < 0x1_0000 && nScid < 0x1_0000
  {
    var product := Mod64(Mod64(TWO_17 * (14 * slot + l + 1)) * (2 * nId + 1));
    Mod64(product + (2 * nId + nScid)) % TWO_31
  }

  /** The receiver's formula: 32-bit identities, so 2 * nId + 1 and the last sum wrap at 32 bits. */
  function RxCinit(slot: nat, l: nat, nId: nat, nScid: nat): nat
    requires nId < TWO_32 && nScid < TWO_32
  {
    var product := Mod64(Mod64(TWO_17 * (14 * slot + l + 1)) * ((2 * nId + 1) % TWO_32));
    Mod64(product + (2 * nId + nScid) % TWO_32) % TWO_31
  }

  /** a and b differ by a multiple of 2^31. */
  ghost predicate Same31(a: int, b: int) {
    exists e: int :: SameBy(a, b, e)
  }

  ghost predicate SameBy(a: int, b: int, e: int) {
    a - b == e * TWO_31
  }

  lemma Same31Mod(a: int, b: int)
    requires Same31(a, b)
    ensures a % TWO_31 == b % TWO_31
  {
    var e :| SameBy(a, b, e);
    var q, r := b / TWO_31, b % TWO_31;
    DivModUnique(a, TWO_31, q + e, r);
  }

  lemma Wrap64Same(x: int)
    ensures Same31(Mod64(x), x)
  {
    assert SameBy(Mod64(x), x, -(x / TWO_64) * 0x2_0000_0000);
  }

  lemma Wrap32Same(x: int)
    ensures Same31(x % TWO_32, x)
  {
    assert SameBy(x % TWO_32, x, -(x / TWO_32) * 2);
  }

  lemma ProductSame(a: int, a': int, b: int, b': int)
    requires Same31(a, a') && Same31(b, b')
    ensures Same31(a * b, a' * b')
  {
    var e :| SameBy(a, a', e);
    var f :| SameBy(b, b', f);
    calc {
      a * b - a' * b';
      (a - a') * b + a' * (b - b');
      (e * TWO_31) * b + a' * (f * TWO_31);
      (e * b + a' * f) * TWO_31;
    }
    assert SameBy(a * b, a' * b', e * b + a' * f);
  }

  lemma SumSame(a: int, a': int, b: int, b': int)
    requires Same31(a, a') && Same31(b, b')
    ensures Same31(a + b, a' + b')
  {
    var e :| SameBy(a, a', e);
    var f :| SameBy(b, b', f);
    assert SameBy(a + b, a' + b', e + f);
  }

  lemma SameChain(a: int, b: int, c: int)
    requires Same31(a, b) && Same31(b, c)
    ensures Same31(a, c)
  {
    var e :| SameBy(a, b, e);
    var f :| SameBy(b, c, f);
    assert SameBy(a, c, e + f);
  }

  lemma WrappedCinit(symbol: int, y: int, z: int, y': int, z': int)
    requires Same31(y, y') && Same31(z, z')
    ensures Mod64(Mod64(Mod64(TWO_17 * symbol) * y) + z) % TWO_31 == (TWO_17 * (symbol * y') + z') % TWO_31
  {
    var p := Mod64(TWO_17 * symbol);
    Wrap64Same(TWO_17 * symbol);
    ProductSame(p, TWO_17 * symbol, y, y');
    Wrap64Same(p * y);
    SameChain(Mod64(p * y), p * y, TWO_17 * symbol * y');
    SumSame(Mod64(p * y), TWO_17 * symbol * y', z, z');
    Wrap64Same(Mod64(p * y) + z);
    SameChain(Mod64(Mod64(p * y) + z), Mod64(p * y) + z, TWO_17 * symbol * y' + z');
    assert TWO_17 * symbol * y' == TWO_17 * (symbol * y');
    Same31Mod(Mod64(Mod64(p * y) + z), TWO_17 * (symbol * y') + z');
  }

  lemma SameSelf(a: int)
    ensures Same31(a, a)
  {
    assert SameBy(a, a, 0);
  }

  lemma TxCinitIsStandard(slot: nat, l: nat, nId: nat, nScid: nat)
    requires nId < 0x1_0000 && nScid < 0x1_0000
    ensures TxCinit(slot, l, nId, nScid) == Cinit(slot, l, nId, nScid)
    ensures TxCinit(slot, l, nId, nScid)
         == (0x2_0000 * ((14 * slot + l + 1) * (2 * nId + 1)) + 2 * nId + nScid) % 0x8000_0000
  {
    SameSelf(2 * nId + 1);
    SameSelf(2 * nId + nScid);
    WrappedCinit(14 * slot + l + 1, 2 * nId + 1, 2 * nId + nScid, 2 * nId + 1, 2 * nId + nScid);
  }

  /** Whatever wraps at 32 or 64 bits, the low 31 bits are the standard's. */
  lemma RxCinitIsStandard(slot: nat, l: nat, nId: nat, nScid: nat)
    requires nId < TWO_32 && nScid < TWO_32
    ensures RxCinit(slot, l, nId, nScid) == Cinit(slot, l, nId, nScid)
    ensures RxCinit(slot, l, nId, nScid)
         == (0x2_0000 * ((14 * slot + l + 1) * (2 * nId + 1)) + 2 * nId + nScid) % 0x8000_0000
  {
    Wrap32Same(2 * nId + 1);
    Wrap32Same(2 * nId + nScid);
    WrappedCinit(14 * slot + l + 1, (2 * nId + 1) % TWO_32, (2 * nId + nScid) % TWO_32, 2 * nId + 1, 2 * nId + nScid);
  }

  /** The transmitter's 14 initial values of a slot. */
  method FillCinit(slot: nat, nId: nat, nScid: nat) returns (c: seq<nat>)
    requires nId < 0x1_0000 && nScid < 0x1_0000
    ensures |c| == 14 && forall l: nat :: l < 14 ==> c[l] == Cinit(slot, l, nId, nScid)
    ensures forall l: nat :: l < 14 ==>
      c[l] == (0x2_0000 * ((14 * slot + l + 1) * (2 * nId + 1)) + 2 * nId + nScid) % 0x8000_0000
  {
    c := [];
    for l := 0 to 14
      invariant |c| == l && forall l': nat :: l' < l ==> c[l'] == Cinit(slot, l', nId, nScid)
      invariant forall l': nat :: l' < l ==>
        c[l'] == (0x2_0000 * ((14 * slot + l' + 1) * (2 * nId + 1)) + 2 * nId + nScid) % 0x8000_0000
    {
      TxCinitIsStandard(slot, l, nId, nScid);
      c := c + [TxCinit(slot, l, nId, nScid)];
    }
  }

  /** The receiver's reference: true where the pilot component is negative. */
  method DmrsSequence(slot: nat, l: nat, nId: nat, nScid: nat, nRe: nat) returns (re: seq<bool>, im: seq<bool>)
    requires nId < TWO_32 && nScid < TWO_32
    ensures |re| == |im| == nRe
    ensures forall k: nat :: k < nRe ==>
      re[k] == Element(Cinit(slot, l, nId, nScid), 2 * k) && im[k] == Element(Cinit(slot, l, nId, nScid), 2 * k + 1)
  {
    RxCinitIsStandard(slot, l, nId, nScid);
    var s := GoldArray(RxCinit(slot, l, nId, nScid), 2 * nRe);
    re := seq(nRe, k requires 0 <= k < nRe => s[2 * k]);
    im := seq(nRe, k requires 0 <= k < nRe => s[2 * k + 1]);
  }

  /** Both ends of the link use the same pilots: for every slot, symbol and 16-bit identity, the
      transmitter's composed plane is the receiver's reference. */
  lemma BothEndsAgree(gmat: seq<seq<bool>>, g1: seq<bool>, slot: nat, l: nat, nId: nat, nScid: nat,
                      re: seq<bool>, im: seq<bool>, k: nat)
    requires FirstPlane(g1) && |gmat| == N_BITS && forall i: nat :: i < N_BITS ==> BasisPlane(gmat[i], i)
    requires nId < 0x1_0000 && nScid < 0x1_0000 && k < 798 && |re| == |im| == 798
    requires forall k: nat :: k < 798 ==>
      re[k] == Element(Cinit(slot, l, nId, nScid), 2 * k) && im[k] == Element(Cinit(slot, l, nId, nScid), 2 * k + 1)
    ensures |g1| == 1792 && |gmat| == 31 && forall i :: 0 <= i < |gmat| ==> |gmat[i]| == 1792
    ensures Composed(gmat, g1, TxCinit(slot, l, nId, nScid), 31, k) == re[k]
    ensures Composed(gmat, g1, TxCinit(slot, l, nId, nScid), 31, 896 + k) == im[k]
  {
    PlanesAlike(gmat, g1);
    TxCinitIsStandard(slot, l, nId, nScid);
    Superposition(gmat, g1, TxCinit(slot, l, nId, nScid), 2 * k);
    Superposition(gmat, g1, TxCinit(slot, l, nId, nScid), 2 * k + 1);
  }
}
