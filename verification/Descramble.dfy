/** The transmitter's scrambling, the scalar descrambling oracle and the tiled kernel. */
module Descramble {
  import opened Arith
  import opened Gold
  import opened PuschTypes
  import opened RateProfile
  import opened Planes
  import opened Scramble
  import opened CircularBuffer
  import opened RateDematch

  const TILE: nat := 32768

  // ---------- transmitter ----------

  function XorBit(bit: int, flip: bool): int {
    if flip then (if bit == 0 then 1 else 0) else bit
  }

  ghost predicate ScrambledEntry(out: seq<int>, bits: seq<int>, c: nat, l: Layout, slot: nat, q: nat, i: nat)
    requires |out| == |bits| == Storage(l) && InPlane(l, slot, q, i)
  {
    El(out, l, slot, q, i) ==
      if i < Valid(l) then XorBit(El(bits, l, slot, Order(q), i), Element(c, GoldIndex(l, slot, Order(q), i))) else 0
  }

  ghost predicate Scrambled(out: seq<int>, bits: seq<int>, c: nat, l: Layout) {
    && |out| == |bits| == Storage(l)
    && forall slot: nat, q: nat, i: nat :: InPlane(l, slot, q, i) ==> ScrambledEntry(out, bits, c, l, slot, q, i)
  }

  /** Planes visited before (q, slot) are scrambled, the others still clear. */
  predicate Before(q: nat, slot: nat, q': nat, slot': nat) {
    q < q' || (q == q' && slot < slot')
  }

  ghost predicate PlaneScrambled(out: seq<int>, bits: seq<int>, c: nat, l: Layout, slot: nat, q: nat)
    requires |out| == |bits| == Storage(l)
  {
    forall i: nat :: InPlane(l, slot, q, i) ==> ScrambledEntry(out, bits, c, l, slot, q, i)
  }

  ghost predicate PlaneClear(out: seq<int>, l: Layout, slot: nat, q: nat)
    requires |out| == Storage(l)
  {
    forall i: nat :: InPlane(l, slot, q, i) ==> El(out, l, slot, q, i) == 0
  }

  ghost predicate ScrambledUpTo(out: seq<int>, bits: seq<int>, c: nat, l: Layout, q: nat, slot: nat) {
    && |out| == |bits| == Storage(l)
    && forall slot': nat, q': nat :: slot' < l.slots && q' < Q_M ==>
         if Before(q', slot', q, slot) then PlaneScrambled(out, bits, c, l, slot', q')
         else PlaneClear(out, l, slot', q')
  }

  lemma PlaneKept(was: seq<int>, now: seq<int>, bits: seq<int>, c: nat, l: Layout, q: nat, slot: nat, q': nat,
                  slot': nat)
    requires OnlyPlane(now, was, l, slot, q, 0, Valid(l)) && |bits| == Storage(l) && (slot' != slot || q' != q)
    ensures PlaneScrambled(was, bits, c, l, slot', q') ==> PlaneScrambled(now, bits, c, l, slot', q')
    ensures PlaneClear(was, l, slot', q') ==> PlaneClear(now, l, slot', q')
  {
    if PlaneScrambled(was, bits, c, l, slot', q') {
      forall i: nat | InPlane(l, slot', q', i)
        ensures ScrambledEntry(now, bits, c, l, slot', q', i)
      {
        assert ScrambledEntry(was, bits, c, l, slot', q', i);
      }
    }
  }

  lemma ScrambleStep(was: seq<int>, now: seq<int>, bits: seq<int>, c: nat, l: Layout, q: nat, slot: nat)
    requires ScrambledUpTo(was, bits, c, l, q, slot) && slot < l.slots && q < Q_M
    requires OnlyPlane(now, was, l, slot, q, 0, Valid(l)) && PlaneScrambled(now, bits, c, l, slot, q)
    ensures ScrambledUpTo(now, bits, c, l, q, slot + 1)
  {
    var next := slot + 1;
    forall slot': nat, q': nat | slot' < l.slots && q' < Q_M
      ensures if Before(q', slot', q, next) then PlaneScrambled(now, bits, c, l, slot', q')
              else PlaneClear(now, l, slot', q')
    {
      if slot' != slot || q' != q {
        PlaneKept(was, now, bits, c, l, q, slot, q', slot');
        assert Before(q', slot', q, slot) <==> Before(q', slot', q, next);
      }
    }
  }

  /** The sequence as the array form gives it, read in symbol order. */
  method ScramblePlane(bits: seq<int>, gold: seq<bool>, c: nat, l: Layout, slot: nat, q: nat, out: array<int>)
    requires |bits| == out.Length == Storage(l) && slot < l.slots && q < Q_M
    requires |gold| == Q_M * (l.slots * Valid(l)) && (forall k: nat :: k < |gold| ==> gold[k] == Element(c, k))
    requires PlaneClear(out[..], l, slot, q)
    modifies out
    ensures PlaneScrambled(out[..], bits, c, l, slot, q)
    ensures OnlyPlane(out[..], old(out[..]), l, slot, q, 0, Valid(l))
  {
    ghost var was := out[..];
    var b := Order(q);
    PlaneFits(l, slot, q);
    PlaneFits(l, slot, b);
    BlockOrder(slot, l.slots, Valid(l));
    forall i | 0 <= i < Valid(l) {
      out[PlaneBase(l, slot, q) + i] := XorBit(bits[PlaneBase(l, slot, b) + i], gold[GoldIndex(l, slot, b, i)]);
    }
    WriteStaysInPlane(out[..], was, l, slot, q, 0, Valid(l));
    ghost var now := out[..];
    forall i: nat | InPlane(l, slot, q, i)
      ensures ScrambledEntry(now, bits, c, l, slot, q, i)
    {
      if i >= Valid(l) {
        assert El(was, l, slot, q, i) == 0;
      }
    }
  }

  /** Scramble all streams with the standard's sequence for an RNTI and cell: physical stream q carries NR bit
      Order(q). */
  method ScrambleBits(bits: seq<int>, rnti: nat, cellId: nat, l: Layout) returns (out: array<int>)
    requires |bits| == Storage(l) && cellId < 0x8000
    ensures fresh(out) && Scrambled(out[..], bits, ScrambleCinit(rnti, 0, cellId), l)
  {
    TxCinitIsSum(rnti, cellId);
    out := ScrambleWith(bits, TxScrambleCinit(rnti, cellId), l);
  }

  method ScrambleWith(bits: seq<int>, c: nat, l: Layout) returns (out: array<int>)
    requires |bits| == Storage(l)
    ensures fresh(out) && Scrambled(out[..], bits, c, l)
  {
    NonNeg(l.slots, Valid(l));
    var gold := GoldArray(c, Q_M * (l.slots * Valid(l)));
    out := new int[|bits|](_ => 0);
    StartsClear(out[..], bits, c, l);
    for q := 0 to Q_M
      invariant ScrambledUpTo(out[..], bits, c, l, q, 0)
    {
      for slot := 0 to l.slots
        invariant ScrambledUpTo(out[..], bits, c, l, q, slot)
      {
        ghost var was := out[..];
        assert !Before(q, slot, q, slot);
        ScramblePlane(bits, gold, c, l, slot, q, out);
        ScrambleStep(was, out[..], bits, c, l, q, slot);
      }
      NextStream(out[..], bits, c, l, q);
    }
    AllScrambled(out[..], bits, c, l);
  }

  lemma StartsClear(out: seq<int>, bits: seq<int>, c: nat, l: Layout)
    requires |out| == |bits| == Storage(l) && forall p :: 0 <= p < |out| ==> out[p] == 0
    ensures ScrambledUpTo(out, bits, c, l, 0, 0)
  {
    forall slot: nat, q: nat, i: nat | InPlane(l, slot, q, i)
      ensures El(out, l, slot, q, i) == 0
    {
      PlaneFits(l, slot, q);
    }
  }

  lemma NextStream(out: seq<int>, bits: seq<int>, c: nat, l: Layout, q: nat)
    requires ScrambledUpTo(out, bits, c, l, q, l.slots)
    ensures ScrambledUpTo(out, bits, c, l, q + 1, 0)
  {
    var next := q + 1;
    forall slot': nat, q': nat | slot' < l.slots && q' < Q_M
      ensures if Before(q', slot', next, 0) then PlaneScrambled(out, bits, c, l, slot', q')
              else PlaneClear(out, l, slot', q')
    {
      assert Before(q', slot', next, 0) <==> Before(q', slot', q, l.slots);
    }
  }

  lemma AllScrambled(out: seq<int>, bits: seq<int>, c: nat, l: Layout)
    requires ScrambledUpTo(out, bits, c, l, Q_M, 0)
    ensures Scrambled(out, bits, c, l)
  {
    forall slot: nat, q: nat, i: nat | InPlane(l, slot, q, i)
      ensures ScrambledEntry(out, bits, c, l, slot, q, i)
    {
      assert Before(q, slot, Q_M, 0);
    }
  }

  /** For h < 4 and p < 2, physical stream h + 4 * p carries NR bit 2 * h + p, added modulo two to its own element of
      the sequence; tails are zero. */
  lemma StreamCarriesBit(out: seq<int>, bits: seq<int>, c: nat, l: Layout, slot: nat, h: nat, p: nat, i: nat,
                         valid: nat, k: nat)
    requires Scrambled(out, bits, c, l) && slot < l.slots && h < 4 && p < 2 && i < 19200 * l.layers
    requires valid == 19152 * l.layers && k == 8 * (slot * valid + i) + (2 * h + p)
    ensures InPlane(l, slot, h + 4 * p, i) && InPlane(l, slot, 2 * h + p, i)
    ensures i >= valid ==> El(out, l, slot, h + 4 * p, i) == 0
    ensures i < valid && 0 <= El(bits, l, slot, 2 * h + p, i) <= 1 ==>
      El(out, l, slot, h + 4 * p, i)
      == (El(bits, l, slot, 2 * h + p, i) + if X1(k + 1600) != X2(StartOf(c), k + 1600) then 1 else 0) % 2
  {
    SequencePlace(l, slot, 2 * h + p, i, valid);
    assert ScrambledEntry(out, bits, c, l, slot, h + 4 * p, i);
  }

  // ---------- receiver ----------

  /** The oracle's product, saturated to 16 bits. */
  function SaturatingProduct(value: int, sign: int): int {
    Muls(Saturating, value * sign)
  }

  /** The kernel's 16-bit product. */
  function KernelProduct(mode: Multiply, value: int, sign: int): int {
    Muls(mode, value * sign)
  }

  /** The only pair on which a wrapping kernel differs from the oracle. */
  lemma ProductsAgreeIff(mode: Multiply, value: int, sign: int)
    requires Int16(value) && (sign == 1 || sign == -1)
    ensures KernelProduct(mode, value, sign) == SaturatingProduct(value, sign)
       <==> !(mode == Wrapping && value == -0x8000 && sign == -1)
  {
  }

  /** Multiplying by a sign keeps the magnitude, but for the one value that has no opposite. */
  lemma ProductKeepsMagnitude(value: int, sign: int)
    requires Int16(value) && (sign == 1 || sign == -1)
    ensures SaturatingProduct(value, sign) ==
      if value == -0x8000 && sign == -1 then 0x7fff else value * sign
  {
  }

  ghost predicate DescrambledEntry(out: seq<int>, qam: seq<int>, sign: seq<int>, mode: Multiply, l: Layout,
                                   slot: nat, bit: nat, i: nat)
    requires |out| == |qam| == |sign| == Storage(l) && InPlane(l, slot, bit, i)
  {
    El(out, l, slot, bit, i) ==
      if i < Valid(l) then
        KernelProduct(mode, El(qam, l, slot, NrBitToQamStream(bit), i), El(sign, l, slot, bit, i))
      else 0
  }

  ghost predicate PlaneDescrambled(out: seq<int>, qam: seq<int>, sign: seq<int>, mode: Multiply, l: Layout, slot: nat,
                                   bit: nat)
    requires |out| == |qam| == |sign| == Storage(l)
  {
    forall i: nat :: InPlane(l, slot, bit, i) ==> DescrambledEntry(out, qam, sign, mode, l, slot, bit, i)
  }

  ghost predicate Descrambled(out: seq<int>, qam: seq<int>, sign: seq<int>, mode: Multiply, l: Layout) {
    && |out| == |qam| == |sign| == Storage(l)
    && forall slot: nat, bit: nat :: slot < l.slots && bit < Q_M ==>
         PlaneDescrambled(out, qam, sign, mode, l, slot, bit)
  }

  ghost predicate DescrambledKept(out: seq<int>, now: seq<int>, qam: seq<int>, sign: seq<int>, mode: Multiply,
                                  l: Layout)
    requires |out| == |now| == |qam| == |sign| == Storage(l)
  {
    forall slot: nat, bit: nat ::
      slot < l.slots && bit < Q_M && PlaneDescrambled(out, qam, sign, mode, l, slot, bit) ==>
      PlaneDescrambled(now, qam, sign, mode, l, slot, bit)
  }

  /** Redoing one plane keeps every plane already done. */
  lemma OthersDescrambled(was: seq<int>, now: seq<int>, qam: seq<int>, sign: seq<int>, mode: Multiply, l: Layout,
                          slot: nat, bit: nat)
    requires |was| == |now| == |qam| == |sign| == Storage(l)
    requires OnlyPlane(now, was, l, slot, bit, 0, Stride(l)) && PlaneDescrambled(now, qam, sign, mode, l, slot, bit)
    ensures DescrambledKept(was, now, qam, sign, mode, l)
  {
    forall slot': nat, bit': nat |
      slot' < l.slots && bit' < Q_M && PlaneDescrambled(was, qam, sign, mode, l, slot', bit')
      ensures PlaneDescrambled(now, qam, sign, mode, l, slot', bit')
    {
      if slot' != slot || bit' != bit {
        forall i: nat | InPlane(l, slot', bit', i)
          ensures DescrambledEntry(now, qam, sign, mode, l, slot', bit', i)
        {
          assert DescrambledEntry(was, qam, sign, mode, l, slot', bit', i);
        }
      }
    }
  }

  /** Element i of a plane stored at `to` is the product of its inputs. */
  ghost predicate Product(now: seq<int>, qam: seq<int>, sign: seq<int>, mode: Multiply, from: nat, to: nat, i: nat) {
    && to + i < |now| && from + i < |qam| && to + i < |sign|
    && now[to + i] == KernelProduct(mode, qam[from + i], sign[to + i])
  }

  ghost predicate Products(now: seq<int>, qam: seq<int>, sign: seq<int>, mode: Multiply, from: nat, to: nat, n: nat) {
    forall i: nat :: i < n ==> Product(now, qam, sign, mode, from, to, i)
  }

  ghost predicate Cleared(now: seq<int>, from: nat, to: nat) {
    to <= |now| && forall p :: from <= p < to ==> now[p] == 0
  }

  /** All valid symbols multiplied and the tail clear: the plane is descrambled. */
  lemma PlaneDone(now: seq<int>, qam: seq<int>, sign: seq<int>, mode: Multiply, l: Layout, slot: nat, bit: nat)
    requires |now| == |qam| == |sign| == Storage(l) && slot < l.slots && bit < Q_M
    requires var from, to := PlaneBase(l, slot, NrBitToQamStream(bit)), PlaneBase(l, slot, bit);
             Products(now, qam, sign, mode, from, to, Valid(l)) && Cleared(now, to + Valid(l), to + Stride(l))
    ensures PlaneDescrambled(now, qam, sign, mode, l, slot, bit)
  {
    var q := NrBitToQamStream(bit);
    PlaneFits(l, slot, bit);
    PlaneFits(l, slot, q);
    forall i: nat | InPlane(l, slot, bit, i)
      ensures DescrambledEntry(now, qam, sign, mode, l, slot, bit, i)
    {
      if i < Valid(l) {
        assert Product(now, qam, sign, mode, PlaneBase(l, slot, q), PlaneBase(l, slot, bit), i);
      }
    }
  }

  lemma ClearPlane(out: seq<int>, l: Layout, slot: nat, bit: nat)
    requires |out| == Storage(l) && slot < l.slots && bit < Q_M && PlaneClear(out, l, slot, bit)
    ensures Cleared(out, PlaneBase(l, slot, bit), PlaneBase(l, slot, bit) + Stride(l))
  {
    PlaneFits(l, slot, bit);
    var base := PlaneBase(l, slot, bit);
    forall p | base <= p < base + Stride(l)
      ensures out[p] == 0
    {
      assert El(out, l, slot, bit, p - base) == 0;
    }
  }

  method MultiplyPlane(qam: seq<int>, sign: seq<int>, from: nat, to: nat, n: nat, out: array<int>)
    requires from + n <= |qam| && to + n <= |sign| == out.Length
    modifies out
    ensures Products(out[..], qam, sign, Saturating, from, to, n)
    ensures KeptOutside(out[..], old(out[..]), to, to + n)
  {
    for symbol := 0 to n
      invariant Products(out[..], qam, sign, Saturating, from, to, symbol)
      invariant KeptOutside(out[..], old(out[..]), to, to + symbol)
    {
      ghost var was := out[..];
      out[to + symbol] := SaturatingProduct(qam[from + symbol], sign[to + symbol]);
      ProductsGrow(was, out[..], qam, sign, Saturating, from, to, symbol);
    }
  }

  lemma ProductsGrow(was: seq<int>, now: seq<int>, qam: seq<int>, sign: seq<int>, mode: Multiply, from: nat, to: nat,
                     n: nat)
    requires Products(was, qam, sign, mode, from, to, n) && Product(now, qam, sign, mode, from, to, n)
    requires KeptOutside(now, was, to + n, to + n + 1)
    ensures Products(now, qam, sign, mode, from, to, n + 1)
  {
    forall i: nat | i < n + 1
      ensures Product(now, qam, sign, mode, from, to, i)
    {
      if i < n {
        assert Product(was, qam, sign, mode, from, to, i);
      }
    }
  }

  /** One plane of the oracle, over cleared output. */
  method ReferencePlane(qam: seq<int>, sign: seq<int>, l: Layout, slot: nat, bit: nat, out: array<int>)
    requires |qam| == |sign| == out.Length == Storage(l) && slot < l.slots && bit < Q_M
    requires PlaneClear(out[..], l, slot, bit)
    modifies out
    ensures PlaneDescrambled(out[..], qam, sign, Saturating, l, slot, bit)
    ensures OnlyPlane(out[..], old(out[..]), l, slot, bit, 0, Valid(l))
  {
    ghost var was := out[..];
    var q := NrBitToQamStream(bit);
    PlaneFits(l, slot, bit);
    PlaneFits(l, slot, q);
    ClearPlane(was, l, slot, bit);
    MultiplyPlane(qam, sign, PlaneBase(l, slot, q), PlaneBase(l, slot, bit), Valid(l), out);
    PlaneDone(out[..], qam, sign, Saturating, l, slot, bit);
    WriteStaysInPlane(out[..], was, l, slot, bit, 0, Valid(l));
  }

  ghost predicate ReferenceUpTo(out: seq<int>, qam: seq<int>, sign: seq<int>, l: Layout, slot: nat, bit: nat) {
    && |out| == |qam| == |sign| == Storage(l)
    && forall slot': nat, bit': nat :: slot' < l.slots && bit' < Q_M ==>
         if Before(slot', bit', slot, bit) then PlaneDescrambled(out, qam, sign, Saturating, l, slot', bit')
         else PlaneClear(out, l, slot', bit')
  }

  lemma ReferenceStep(was: seq<int>, now: seq<int>, qam: seq<int>, sign: seq<int>, l: Layout, slot: nat, bit: nat)
    requires ReferenceUpTo(was, qam, sign, l, slot, bit) && slot < l.slots && bit < Q_M
    requires OnlyPlane(now, was, l, slot, bit, 0, Valid(l))
    requires PlaneDescrambled(now, qam, sign, Saturating, l, slot, bit)
    ensures ReferenceUpTo(now, qam, sign, l, slot, bit + 1)
  {
    var next := bit + 1;
    OthersDescrambled(was, now, qam, sign, Saturating, l, slot, bit);
    forall slot': nat, bit': nat | slot' < l.slots && bit' < Q_M
      ensures if Before(slot', bit', slot, next) then PlaneDescrambled(now, qam, sign, Saturating, l, slot', bit')
              else PlaneClear(now, l, slot', bit')
    {
      if slot' != slot || bit' != bit {
        PlaneKept(was, now, qam, 0, l, bit, slot, bit', slot');
        assert Before(slot', bit', slot, bit) <==> Before(slot', bit', slot, next);
      }
    }
  }

  /** The scalar oracle: refused for an unsupported profile or another layout. */
  method ReferenceDescramble(qam: seq<int>, sign: seq<int>, c: Config, words: LayoutWords, slots: nat)
    returns (status: Status, out: array<int>)
    requires |qam| == |sign| == Storage(LayoutOf(c, slots))
    ensures status == if DescrambleStatus(c, slots) != Ok then DescrambleStatus(c, slots)
                      else if words != CurrentLayout(c.layers) then LayoutMismatch else Ok
    ensures status == Ok ==> Descrambled(out[..], qam, sign, Saturating, LayoutOf(c, slots))
  {
    out := new int[0];
    var expected;
    status, expected := DescrambleProfile(c, slots);
    if status != Ok {
      return;
    }
    if words != expected {
      return LayoutMismatch, out;
    }
    out := ReferencePlanes(qam, sign, LayoutOf(c, slots));
  }

  method ReferencePlanes(qam: seq<int>, sign: seq<int>, l: Layout) returns (out: array<int>)
    requires |qam| == |sign| == Storage(l)
    ensures fresh(out) && Descrambled(out[..], qam, sign, Saturating, l)
  {
    out := new int[|qam|](_ => 0);
    StartsClear(out[..], qam, 0, l);
    assert forall slot': nat, bit': nat :: !Before(slot', bit', 0, 0);
    for slot := 0 to l.slots
      invariant ReferenceUpTo(out[..], qam, sign, l, slot, 0)
    {
      for bit := 0 to Q_M
        invariant ReferenceUpTo(out[..], qam, sign, l, slot, bit)
      {
        ghost var was := out[..];
        assert !Before(slot, bit, slot, bit);
        ReferencePlane(qam, sign, l, slot, bit, out);
        ReferenceStep(was, out[..], qam, sign, l, slot, bit);
      }
      NextReferenceSlot(out[..], qam, sign, l, slot);
    }
    forall slot: nat, bit: nat | slot < l.slots && bit < Q_M
      ensures PlaneDescrambled(out[..], qam, sign, Saturating, l, slot, bit)
    {
      assert Before(slot, bit, l.slots, 0);
    }
  }

  lemma NextReferenceSlot(out: seq<int>, qam: seq<int>, sign: seq<int>, l: Layout, slot: nat)
    requires ReferenceUpTo(out, qam, sign, l, slot, Q_M)
    ensures ReferenceUpTo(out, qam, sign, l, slot + 1, 0)
  {
    var next := slot + 1;
    forall slot': nat, bit': nat | slot' < l.slots && bit' < Q_M
      ensures if Before(slot', bit', next, 0) then PlaneDescrambled(out, qam, sign, Saturating, l, slot', bit')
              else PlaneClear(out, l, slot', bit')
    {
      assert Before(slot', bit', next, 0) <==> Before(slot', bit', slot, Q_M);
    }
  }

  // ---------- the kernel ----------

  /** Load, multiply and store one tile. */
  method RunTile(mode: Multiply, qam: seq<int>, sign: seq<int>, from: nat, to: nat, offset: nat, count: nat,
                 llr: array<int>, sgn: array<int>, out: array<int>)
    requires llr != sgn && out != llr && out != sgn && count <= llr.Length && count <= sgn.Length
    requires from + offset + count <= |qam| && to + offset + count <= |sign| == out.Length
    requires Products(out[..], qam, sign, mode, from, to, offset)
    modifies llr, sgn, out
    ensures Products(out[..], qam, sign, mode, from, to, offset + count)
    ensures KeptOutside(out[..], old(out[..]), to + offset, to + offset + count)
  {
    ghost var was := out[..];
    forall e | 0 <= e < count {
      llr[e] := qam[from + offset + e];
    }
    forall e | 0 <= e < count {
      sgn[e] := sign[to + offset + e];
    }
    forall e | 0 <= e < count {
      llr[e] := KernelProduct(mode, llr[e], sgn[e]);
    }
    forall e | 0 <= e < count {
      out[to + offset + e] := llr[e];
    }
    TileGrows(was, out[..], qam, sign, mode, from, to, offset, count);
  }

  lemma TileGrows(was: seq<int>, now: seq<int>, qam: seq<int>, sign: seq<int>, mode: Multiply, from: nat, to: nat,
                  offset: nat, count: nat)
    requires Products(was, qam, sign, mode, from, to, offset)
    requires from + offset + count <= |qam| && to + offset + count <= |sign| == |now|
    requires KeptOutside(now, was, to + offset, to + offset + count)
    requires forall p :: to + offset <= p < to + offset + count ==>
             now[p] == KernelProduct(mode, qam[p - to + from], sign[p])
    ensures Products(now, qam, sign, mode, from, to, offset + count)
  {
    forall i: nat | i < offset + count
      ensures Product(now, qam, sign, mode, from, to, i)
    {
      if i < offset {
        assert Product(was, qam, sign, mode, from, to, i);
      } else {
        assert now[to + i] == KernelProduct(mode, qam[to + i - to + from], sign[to + i]);
      }
    }
  }

  method RunTiles(mode: Multiply, qam: seq<int>, sign: seq<int>, from: nat, to: nat, n: nat,
                  llr: array<int>, sgn: array<int>, out: array<int>)
    requires llr != sgn && out != llr && out != sgn && llr.Length == sgn.Length == TILE
    requires from + n <= |qam| && to + n <= |sign| == out.Length
    modifies llr, sgn, out
    ensures Products(out[..], qam, sign, mode, from, to, n)
    ensures KeptOutside(out[..], old(out[..]), to, to + n)
  {
    var offset := 0;
    while offset < n
      invariant Products(out[..], qam, sign, mode, from, to, Min(offset, n))
      invariant KeptOutside(out[..], old(out[..]), to, to + Min(offset, n))
    {
      var count := if offset + TILE <= n then TILE else n - offset;
      RunTile(mode, qam, sign, from, to, offset, count, llr, sgn, out);
      offset := offset + TILE;
    }
  }

  method ClearTail(out: array<int>, from: nat, to: nat)
    requires from <= to <= out.Length
    modifies out
    ensures Cleared(out[..], from, to) && KeptOutside(out[..], old(out[..]), from, to)
  {
    forall p | from <= p < to {
      out[p] := 0;
    }
  }

  lemma ProductsKept(was: seq<int>, now: seq<int>, qam: seq<int>, sign: seq<int>, mode: Multiply, from: nat, to: nat,
                     n: nat, end: nat)
    requires Products(was, qam, sign, mode, from, to, n) && KeptOutside(now, was, to + n, end)
    ensures Products(now, qam, sign, mode, from, to, n)
  {
    forall i: nat | i < n
      ensures Product(now, qam, sign, mode, from, to, i)
    {
      assert Product(was, qam, sign, mode, from, to, i);
    }
  }

  /** One stream of one slot: tiles, then the tail. */
  method RunPlane(mode: Multiply, qam: seq<int>, sign: seq<int>, l: Layout, slot: nat, bit: nat,
                  llr: array<int>, sgn: array<int>, out: array<int>)
    requires llr != sgn && out != llr && out != sgn && llr.Length == sgn.Length == TILE
    requires |qam| == |sign| == out.Length == Storage(l) && slot < l.slots && bit < Q_M
    modifies llr, sgn, out
    ensures PlaneDescrambled(out[..], qam, sign, mode, l, slot, bit)
    ensures DescrambledKept(old(out[..]), out[..], qam, sign, mode, l)
  {
    ghost var was := out[..];
    var q := NrBitToQamStream(bit);
    PlaneFits(l, slot, bit);
    PlaneFits(l, slot, q);
    var from, to := PlaneBase(l, slot, q), PlaneBase(l, slot, bit);
    RunTiles(mode, qam, sign, from, to, Valid(l), llr, sgn, out);
    ghost var mid := out[..];
    ClearTail(out, to + Valid(l), to + Stride(l));
    ProductsKept(mid, out[..], qam, sign, mode, from, to, Valid(l), to + Stride(l));
    PlaneDone(out[..], qam, sign, mode, l, slot, bit);
    WriteStaysInPlane(out[..], was, l, slot, bit, 0, Stride(l));
    OthersDescrambled(was, out[..], qam, sign, mode, l, slot, bit);
  }

  ghost predicate StreamUpTo(out: seq<int>, qam: seq<int>, sign: seq<int>, mode: Multiply, l: Layout, bit: nat, n: nat)
    requires |out| == |qam| == |sign| == Storage(l)
  {
    forall slot: nat :: slot < n ==> PlaneDescrambled(out, qam, sign, mode, l, slot, bit)
  }

  ghost predicate StreamsDone(out: seq<int>, qam: seq<int>, sign: seq<int>, mode: Multiply, l: Layout, done: set<nat>)
    requires |out| == |qam| == |sign| == Storage(l)
  {
    forall bit: nat :: bit in done && bit < Q_M ==> StreamUpTo(out, qam, sign, mode, l, bit, l.slots)
  }

  lemma StreamsKept(was: seq<int>, now: seq<int>, qam: seq<int>, sign: seq<int>, mode: Multiply, l: Layout,
                    done: set<nat>)
    requires |was| == |now| == |qam| == |sign| == Storage(l)
    requires DescrambledKept(was, now, qam, sign, mode, l) && StreamsDone(was, qam, sign, mode, l, done)
    ensures StreamsDone(now, qam, sign, mode, l, done)
  {
    forall bit: nat | bit in done && bit < Q_M
      ensures StreamUpTo(now, qam, sign, mode, l, bit, l.slots)
    {
      assert StreamUpTo(was, qam, sign, mode, l, bit, l.slots);
      forall slot: nat | slot < l.slots
        ensures PlaneDescrambled(now, qam, sign, mode, l, slot, bit)
      {
        assert PlaneDescrambled(was, qam, sign, mode, l, slot, bit);
      }
    }
  }

  /** One output stream over all slots. */
  method RunStream(mode: Multiply, qam: seq<int>, sign: seq<int>, l: Layout, bit: nat,
                   llr: array<int>, sgn: array<int>, out: array<int>, ghost done: set<nat>)
    requires llr != sgn && out != llr && out != sgn && llr.Length == sgn.Length == TILE
    requires |qam| == |sign| == out.Length == Storage(l) && bit < Q_M
    requires StreamsDone(out[..], qam, sign, mode, l, done)
    modifies llr, sgn, out
    ensures StreamsDone(out[..], qam, sign, mode, l, done + {bit})
  {
    for slot := 0 to l.slots
      invariant StreamsDone(out[..], qam, sign, mode, l, done)
      invariant StreamUpTo(out[..], qam, sign, mode, l, bit, slot)
    {
      ghost var was := out[..];
      RunPlane(mode, qam, sign, l, slot, bit, llr, sgn, out);
      StreamsKept(was, out[..], qam, sign, mode, l, done);
    }
  }

  /** The kernel on its four cores, each with two streams. */
  method DescrambleOnCores(mode: Multiply, qam: seq<int>, sign: seq<int>, l: Layout) returns (out: array<int>)
    requires |qam| == |sign| == Storage(l)
    ensures fresh(out) && Descrambled(out[..], qam, sign, mode, l)
  {
    out := new int[|qam|];
    ghost var done: set<nat> := {};
    for raw := 0 to 4
      invariant StreamsDone(out[..], qam, sign, mode, l, done)
      invariant forall r: nat :: r < raw ==> CoreOf(r) in done && CoreOf(r) + 4 in done
    {
      var llr, sgn := new int[TILE], new int[TILE];
      var core := CoreOf(raw);
      RunStream(mode, qam, sign, l, core, llr, sgn, out, done);
      done := done + {core};
      RunStream(mode, qam, sign, l, core + 4, llr, sgn, out, done);
      done := done + {core + 4};
    }
    assert CoreOf(0) == 2 && CoreOf(1) == 3 && CoreOf(2) == 0 && CoreOf(3) == 1;
    forall slot: nat, bit: nat | slot < l.slots && bit < Q_M
      ensures PlaneDescrambled(out[..], qam, sign, mode, l, slot, bit)
    {
      assert bit in done;
      assert StreamUpTo(out[..], qam, sign, mode, l, bit, l.slots);
    }
  }

  /** A 16-bit value under a sign: itself, or its opposite, but for the one value that has none. */
  ghost predicate Signed(product: int, value: int, sign: int, mode: Multiply) {
    && (sign == 1 ==> product == value)
    && (sign == -1 ==> product == if value != -32768 then -value else if mode == Wrapping then -32768 else 32767)
  }

  /** For h < 4 and p < 2, NR bit 2 * h + p is read from physical stream h + 4 * p; tails are zero. */
  lemma BitComesFromStream(out: seq<int>, qam: seq<int>, sign: seq<int>, mode: Multiply, l: Layout, slot: nat, h: nat,
                           p: nat, i: nat)
    requires Descrambled(out, qam, sign, mode, l) && slot < l.slots && h < 4 && p < 2 && i < 19200 * l.layers
    ensures InPlane(l, slot, h + 4 * p, i) && InPlane(l, slot, 2 * h + p, i)
    ensures i >= 19152 * l.layers ==> El(out, l, slot, 2 * h + p, i) == 0
    ensures i < 19152 * l.layers && -32768 <= El(qam, l, slot, h + 4 * p, i) <= 32767 ==>
      Signed(El(out, l, slot, 2 * h + p, i), El(qam, l, slot, h + 4 * p, i), El(sign, l, slot, 2 * h + p, i), mode)
  {
    assert PlaneDescrambled(out, qam, sign, mode, l, slot, 2 * h + p);
    assert DescrambledEntry(out, qam, sign, mode, l, slot, 2 * h + p, i);
  }

  // ---------- agreement and round trip ----------

  /** The one pair a wrapping kernel gets wrong: the value whose negation a 16-bit lane cannot hold, negated. */
  ghost predicate Overflows(mode: Multiply, qam: seq<int>, sign: seq<int>, l: Layout, slot: nat, bit: nat, i: nat)
    requires |qam| == |sign| == Storage(l) && InPlane(l, slot, bit, i)
  {
    && mode == Wrapping && i < Valid(l)
    && El(qam, l, slot, NrBitToQamStream(bit), i) == -0x8000 && El(sign, l, slot, bit, i) == -1
  }

  /** 16-bit values and signs, where they are read. */
  ghost predicate InputOk(qam: seq<int>, sign: seq<int>, l: Layout, slot: nat, bit: nat, i: nat)
    requires |qam| == |sign| == Storage(l) && InPlane(l, slot, bit, i)
  {
    i < Valid(l) ==>
      && Int16(El(qam, l, slot, NrBitToQamStream(bit), i))
      && (El(sign, l, slot, bit, i) == 1 || El(sign, l, slot, bit, i) == -1)
  }

  /** Element by element, the tiled kernel produces the oracle's value exactly where nothing overflows. */
  lemma KernelIsOracleAt(mode: Multiply, qam: seq<int>, sign: seq<int>, l: Layout, kernel: seq<int>, oracle: seq<int>,
                         slot: nat, bit: nat, i: nat)
    requires Descrambled(kernel, qam, sign, mode, l) && Descrambled(oracle, qam, sign, Saturating, l)
    requires InPlane(l, slot, bit, i) && InputOk(qam, sign, l, slot, bit, i)
    ensures El(kernel, l, slot, bit, i) == El(oracle, l, slot, bit, i) <==> !Overflows(mode, qam, sign, l, slot, bit, i)
  {
    assert PlaneDescrambled(kernel, qam, sign, mode, l, slot, bit);
    assert DescrambledEntry(kernel, qam, sign, mode, l, slot, bit, i);
    assert PlaneDescrambled(oracle, qam, sign, Saturating, l, slot, bit);
    assert DescrambledEntry(oracle, qam, sign, Saturating, l, slot, bit, i);
    if i < Valid(l) {
      ProductsAgreeIff(mode, El(qam, l, slot, NrBitToQamStream(bit), i), El(sign, l, slot, bit, i));
    }
  }

  /** The two arrays are equal exactly when no valid symbol overflows. */
  lemma KernelIsOracle(mode: Multiply, qam: seq<int>, sign: seq<int>, l: Layout, kernel: seq<int>, oracle: seq<int>)
    requires Descrambled(kernel, qam, sign, mode, l) && Descrambled(oracle, qam, sign, Saturating, l) && l.layers > 0
    requires forall slot: nat, bit: nat, i: nat :: InPlane(l, slot, bit, i) ==> InputOk(qam, sign, l, slot, bit, i)
    ensures kernel == oracle
       <==> forall slot: nat, bit: nat, i: nat :: InPlane(l, slot, bit, i) ==>
              !Overflows(mode, qam, sign, l, slot, bit, i)
  {
    forall slot: nat, bit: nat, i: nat | InPlane(l, slot, bit, i)
      ensures El(kernel, l, slot, bit, i) == El(oracle, l, slot, bit, i)
         <==> !Overflows(mode, qam, sign, l, slot, bit, i)
    {
      KernelIsOracleAt(mode, qam, sign, l, kernel, oracle, slot, bit, i);
    }
    if forall slot: nat, bit: nat, i: nat :: InPlane(l, slot, bit, i) ==> !Overflows(mode, qam, sign, l, slot, bit, i) {
      PlanesEqual(l, kernel, oracle);
    }
  }

  lemma FlipSides(mode: Multiply, bit: int, flip: bool, value: int)
    requires (bit == 0 || bit == 1) && Int16(value) && Side(XorBit(bit, flip), value) > 0
    requires mode == Wrapping ==> value != -0x8000
    ensures Side(bit, KernelProduct(mode, value, SignOf(flip))) > 0
    ensures Int16(KernelProduct(mode, value, SignOf(flip)))
    ensures SameMagnitude(value, KernelProduct(mode, value, SignOf(flip)))
  {
  }

  /** Equal or opposite, except that -32768 may saturate. */
  predicate SameMagnitude(value: int, product: int) {
    product == value || product == -value || (value == -0x8000 && product == 0x7fff)
  }

  /** The soft value a demodulator must deliver: nonzero, with the sign of its scrambled bit. */
  ghost predicate Delivered(scrambled: seq<int>, qam: seq<int>, mode: Multiply, l: Layout, slot: nat, q: nat, i: nat)
    requires |scrambled| == |qam| == Storage(l) && InPlane(l, slot, q, i)
  {
    var v := El(qam, l, slot, q, i);
    Int16(v) && Side(El(scrambled, l, slot, q, i), v) > 0 && (mode == Wrapping ==> v != -0x8000)
  }

  /** Scrambling then descrambling is the identity on decisions: wherever a soft value has the sign of
      its scrambled bit, the descrambled value has the sign of the original bit and the same magnitude,
      and tails are zero. */
  lemma RoundTrip(bits: seq<int>, scrambled: seq<int>, c: nat, l: Layout, qam: seq<int>, sign: seq<int>, out: seq<int>,
                  mode: Multiply, slot: nat, bit: nat, i: nat)
    requires Scrambled(scrambled, bits, c, l) && SignTable(sign, c, l) && Descrambled(out, qam, sign, mode, l)
    requires InPlane(l, slot, bit, i) && (El(bits, l, slot, bit, i) == 0 || El(bits, l, slot, bit, i) == 1)
    requires i < Valid(l) ==> Delivered(scrambled, qam, mode, l, slot, NrBitToQamStream(bit), i)
    ensures if i < Valid(l) then Side(El(bits, l, slot, bit, i), El(out, l, slot, bit, i)) > 0
            else El(out, l, slot, bit, i) == 0
    ensures Int16(El(out, l, slot, bit, i))
    ensures i < Valid(l) ==> SameMagnitude(El(qam, l, slot, NrBitToQamStream(bit), i), El(out, l, slot, bit, i))
  {
    var q := NrBitToQamStream(bit);
    assert PlaneDescrambled(out, qam, sign, mode, l, slot, bit);
    assert DescrambledEntry(out, qam, sign, mode, l, slot, bit, i);
    if i < Valid(l) {
      StreamsInverse(bit);
      assert ScrambledEntry(scrambled, bits, c, l, slot, q, i);
      assert SignEntry(sign, c, l, slot, bit, i);
      FlipSides(mode, El(bits, l, slot, bit, i), Element(c, GoldIndex(l, slot, bit, i)), El(qam, l, slot, q, i));
    }
  }
}
