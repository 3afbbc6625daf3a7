/** Slot-major storage of bit planes: [slot][bit][symbol, tail]. */
module Planes {
  import opened Arith
  import opened RateProfile

  function PlaneNo(slot: nat, bit: nat): nat {
    Q_M * slot + bit
  }

  lemma PlaneBaseIsProduct(l: Layout, slot: nat, bit: nat)
    ensures PlaneBase(l, slot, bit) == PlaneNo(slot, bit) * Stride(l)
  {
    var s := Stride(l);
    assert slot * (Q_M * s) == (Q_M * slot) * s;
    assert (Q_M * slot + bit) * s == (Q_M * slot) * s + bit * s;
  }

  lemma PlaneFits(l: Layout, slot: nat, bit: nat)
    requires slot < l.slots && bit < Q_M
    ensures PlaneBase(l, slot, bit) + Stride(l) <= Storage(l)
  {
    PlaneBaseIsProduct(l, slot, bit);
    PlaneBaseIsProduct(l, l.slots, 0);
    BlockOrder(PlaneNo(slot, bit), PlaneNo(l.slots, 0), Stride(l));
  }

  /** Two planes never overlap. */
  lemma PlanesApart(l: Layout, slot: nat, bit: nat, slot': nat, bit': nat)
    requires bit < Q_M && bit' < Q_M && (slot != slot' || bit != bit')
    ensures PlaneBase(l, slot, bit) + Stride(l) <= PlaneBase(l, slot', bit')
         || PlaneBase(l, slot', bit') + Stride(l) <= PlaneBase(l, slot, bit)
  {
    PlaneBaseIsProduct(l, slot, bit);
    PlaneBaseIsProduct(l, slot', bit');
    if PlaneNo(slot, bit) < PlaneNo(slot', bit') {
      BlockOrder(PlaneNo(slot, bit), PlaneNo(slot', bit'), Stride(l));
    } else {
      BlockOrder(PlaneNo(slot', bit'), PlaneNo(slot, bit), Stride(l));
    }
  }

  predicate InPlane(l: Layout, slot: nat, bit: nat, i: nat) {
    slot < l.slots && bit < Q_M && i < Stride(l)
  }

  /** Element i of a bit plane. */
  function El(s: seq<int>, l: Layout, slot: nat, bit: nat, i: nat): int
    requires |s| == Storage(l) && InPlane(l, slot, bit, i)
  {
    PlaneFits(l, slot, bit);
    s[PlaneBase(l, slot, bit) + i]
  }

  /** Symbol number within the codeword: slot after slot, tails skipped. */
  function Logical(l: Layout, slot: nat, i: nat): nat {
    NonNeg(slot, Valid(l));
    slot * Valid(l) + i
  }

  /** Position of a symbol's bit in the scrambling sequence: symbol by symbol, the bits of a symbol together. */
  function GoldIndex(l: Layout, slot: nat, bit: nat, i: nat): nat {
    Q_M * Logical(l, slot, i) + bit
  }

  /** Plane after plane, eight to a slot: where an element is stored. */
  lemma ElementIsStored(s: seq<int>, l: Layout, slot: nat, bit: nat, i: nat, stride: nat)
    requires |s| == Storage(l) && slot < l.slots && bit < 8 && i < stride == 19200 * l.layers
    ensures InPlane(l, slot, bit, i) && |s| == l.slots * (8 * stride)
    ensures 0 <= (8 * slot + bit) * stride + i < |s| && El(s, l, slot, bit, i) == s[(8 * slot + bit) * stride + i]
  {
    PlaneFits(l, slot, bit);
    PlaneBaseIsProduct(l, slot, bit);
  }

  /** Symbol after symbol, eight bits to a symbol: which sequence element an element takes. */
  lemma SequencePlace(l: Layout, slot: nat, bit: nat, i: nat, valid: nat)
    requires valid == 19152 * l.layers
    ensures GoldIndex(l, slot, bit, i) == 8 * (slot * valid + i) + bit
  {
  }

  /** No two valid symbol bits share a sequence element. */
  lemma GoldIndexInjective(l: Layout, slot: nat, bit: nat, i: nat, slot': nat, bit': nat, i': nat)
    requires bit < Q_M && bit' < Q_M && i < Valid(l) && i' < Valid(l)
    requires GoldIndex(l, slot, bit, i) == GoldIndex(l, slot', bit', i')
    ensures slot == slot' && bit == bit' && i == i'
  {
    if slot < slot' {
      BlockOrder(slot, slot', Valid(l));
    } else if slot' < slot {
      BlockOrder(slot', slot, Valid(l));
    }
  }

  /** A codeword symbol is element SymbolOf of plane SlotOf, and takes sequence element Q_M * logical + bit. */
  lemma LogicalElement(l: Layout, bit: nat, logical: nat)
    requires LayoutOk(l) && bit < Q_M && logical < Symbols(l)
    ensures InPlane(l, SlotOf(l, logical), bit, SymbolOf(l, logical))
    ensures InputIndex(l, bit, logical) == PlaneBase(l, SlotOf(l, logical), bit) + SymbolOf(l, logical)
    ensures Logical(l, SlotOf(l, logical), SymbolOf(l, logical)) == logical
  {
    SlotBelow(l, logical);
    assert logical == SlotOf(l, logical) * Valid(l) + SymbolOf(l, logical);
  }

  /** Only elements from..to of one plane have changed. */
  ghost predicate OnlyPlane(now: seq<int>, was: seq<int>, l: Layout, slot: nat, bit: nat, from: nat, to: nat) {
    && |now| == |was| == Storage(l)
    && forall slot': nat, bit': nat, i: nat ::
         InPlane(l, slot', bit', i) && !(slot' == slot && bit' == bit && from <= i < to) ==>
         El(now, l, slot', bit', i) == El(was, l, slot', bit', i)
  }

  /** A write to consecutive elements of one plane changes nothing else. */
  lemma WriteStaysInPlane(now: seq<int>, was: seq<int>, l: Layout, slot: nat, bit: nat, from: nat, to: nat)
    requires |now| == |was| == Storage(l) && slot < l.slots && bit < Q_M && from <= to <= Stride(l)
    requires forall p :: 0 <= p < |was| && !(PlaneBase(l, slot, bit) + from <= p < PlaneBase(l, slot, bit) + to) ==>
      now[p] == was[p]
    ensures OnlyPlane(now, was, l, slot, bit, from, to)
  {
    forall slot': nat, bit': nat, i: nat | InPlane(l, slot', bit',
                                                   i) && !(slot' == slot && bit' == bit && from <= i < to)
      ensures El(now, l, slot', bit', i) == El(was, l, slot', bit', i)
    {
      PlaneFits(l, slot', bit');
      if slot' != slot || bit' != bit {
        PlanesApart(l, slot, bit, slot', bit');
      }
    }
  }

  /** Every storage position is an element of a plane. */
  lemma PlaneOfPosition(l: Layout, p: nat, plane: nat, slot: nat, bit: nat)
    requires l.layers > 0 && p < Storage(l) && plane == p / Stride(l) && slot == plane / Q_M && bit == plane % Q_M
    ensures InPlane(l, slot, bit, p % Stride(l)) && PlaneBase(l, slot, bit) + p % Stride(l) == p
  {
    var s := Stride(l);
    assert p == plane * s + p % s;
    PlaneBaseIsProduct(l, slot, bit);
    PlaneBaseIsProduct(l, l.slots, 0);
    if slot >= l.slots {
      MulGrows(PlaneNo(l.slots, 0), plane, s);
    }
  }

  /** Arrays whose planes are equal are equal. */
  lemma PlanesEqual(l: Layout, a: seq<int>, b: seq<int>)
    requires l.layers > 0 && |a| == |b| == Storage(l)
    requires forall slot: nat, bit: nat, i: nat :: InPlane(l, slot, bit, i) ==>
             El(a, l, slot, bit, i) == El(b, l, slot, bit, i)
    ensures a == b
  {
    forall p | 0 <= p < |a|
      ensures a[p] == b[p]
    {
      QuotientNat(p, Stride(l));
      var plane, i := p / Stride(l), p % Stride(l);
      PlaneOfPosition(l, p, plane, plane / Q_M, plane % Q_M);
      assert El(a, l, plane / Q_M, plane % Q_M, i) == El(b, l, plane / Q_M, plane % Q_M, i);
    }
  }
}
