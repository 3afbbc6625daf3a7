/** Scrambling of the coded bits and descrambling of their soft values. */
module Scramble {
  import opened Arith
  import opened Bits
  import opened Gold
  import opened PuschTypes
  import opened RateProfile
  import opened Planes

  // ---------- the stream permutation ----------

  /** The NR bit that physical stream q carries. */
  function Order(q: nat): (b: nat)
    requires q < Q_M
    ensures b < Q_M
  {
    [0, 2, 4, 6, 1, 3, 5, 7][q]
  }

  /** The physical stream that carries NR bit b, as the kernels compute it. */
  function NrBitToQamStream(b: nat): (q: nat)
    requires b < Q_M
    ensures q < Q_M
  {
    b / 2 + b % 2 * 4
  }

  /** The kernels' formula is the oracle's table, and the inverse of the transmitter's order. */
  lemma StreamsInverse(k: nat)
    requires k < 8
    ensures Order(NrBitToQamStream(k)) == k && NrBitToQamStream(Order(k)) == k
    ensures NrBitToQamStream(k) == [0, 4, 1, 5, 2, 6, 3, 7][k]
    ensures Order(k) == if k < 4 then 2 * k else 2 * (k - 4) + 1
  {
  }

  // ---------- initial value ----------

  /** Section 6.3.1.1 of TS 38.211. */
  function ScrambleCinit(rnti: nat, codeword: nat, id: nat): nat {
    0x8000 * rnti + 0x4000 * codeword + id
  }

  /** The transmitter's formula: (rnti << 15) | id. */
  function TxScrambleCinit(rnti: nat, id: nat): nat {
    BitOr(0x8000 * rnti, id)
  }

  /** The MIMO receiver's formula: (rnti << 15) | ((codeword & 1) << 14) | id. */
  function MimoScrambleCinit(rnti: nat, codeword: nat, id: nat): nat {
    BitOr(BitOr(0x8000 * rnti, 0x4000 * (codeword % 2)), id)
  }

  /** The single-layer chain's formula: ((rnti & 0xffff) << 15) | ((q & 1) << 14) | (id & 0x3ff). */
  function SisoScrambleCinit(rnti: nat, q: nat, id: nat): nat {
    BitOr(BitOr(0x8000 * (rnti % 0x1_0000), 0x4000 * (q % 2)), id % 0x400)
  }

  /** An identity below 2^14 sits below the codeword bit, and that below the RNTI: the fields do not overlap. */
  lemma FieldsDoNotOverlap(rnti: nat, codeword: nat, id: nat)
    requires id < 0x4000
    ensures MimoScrambleCinit(rnti, codeword, id) == ScrambleCinit(rnti, codeword % 2, id)
         == 0x8000 * rnti + 0x4000 * (codeword % 2) + id
  {
    assert Pow2(14) == 0x4000 && Pow2(15) == 0x8000;
    OrDisjoint(rnti, 0x4000 * (codeword % 2), 15);
    OrDisjoint(2 * rnti + codeword % 2, id, 14);
  }

  lemma TxCinitIsSum(rnti: nat, id: nat)
    requires id < 0x8000
    ensures TxScrambleCinit(rnti, id) == ScrambleCinit(rnti, 0, id)
  {
    assert Pow2(15) == 0x8000;
    OrDisjoint(rnti, id, 15);
  }

  /** The single-layer masks cut both identities to size. */
  lemma MasksCut(rnti: nat, q: nat, id: nat)
    ensures SisoScrambleCinit(rnti, q, id) == ScrambleCinit(rnti % 0x1_0000, q % 2, id % 0x400)
  {
    FieldsDoNotOverlap(rnti % 0x1_0000, q, id % 0x400);
  }

  lemma SmallRemainder(x: nat, n: nat)
    requires x < n
    ensures x % n == x
  {
  }

  /** For 16-bit identities of the radio network and cell identities up to 1023, both receivers' formulas are the
      standard's for every codeword, and the transmitter's is the standard's for the first. */
  lemma CinitsAgree(rnti: nat, codeword: nat, id: nat)
    requires rnti < 0x1_0000 && id <= 1023
    ensures MimoScrambleCinit(rnti, codeword, id) == ScrambleCinit(rnti, codeword % 2, id)
    ensures SisoScrambleCinit(rnti, codeword, id) == ScrambleCinit(rnti, codeword % 2, id)
    ensures codeword % 2 == 0 ==> TxScrambleCinit(rnti, id) == ScrambleCinit(rnti, codeword % 2, id)
  {
    SmallRemainder(rnti, 0x1_0000);
    SmallRemainder(id, 0x400);
    FieldsDoNotOverlap(rnti, codeword, id);
    MasksCut(rnti, codeword, id);
    TxCinitIsSum(rnti, id);
  }

  /** What a 16-bit identity adds to the fields above it. */
  lemma HighBitsAdd(rnti: nat, q: nat, high: nat)
    requires q <= 1 && high < 4
    ensures BitOr(2 * rnti + q, high) == 2 * rnti + q
         <==> (high % 2 == 1 ==> q == 1) && (high / 2 == 1 ==> rnti % 2 == 1)
  {
    OrHalves(2 * rnti + q, high);
    assert (2 * rnti + q) / 2 == rnti;
    OrHalves(rnti, high / 2);
    assert BitOr(rnti / 2, high / 2 / 2) == rnti / 2;
  }

  lemma MimoSplits(rnti: nat, codeword: nat, id: nat)
    ensures MimoScrambleCinit(rnti, codeword, id)
         == 0x4000 * BitOr(2 * rnti + codeword % 2, id / 0x4000) + id % 0x4000
  {
    var q := codeword % 2;
    assert Pow2(14) == 0x4000 && Pow2(15) == 0x8000;
    OrDisjoint(rnti, 0x4000 * q, 15);
    assert 0x4000 * (id / 0x4000) + id % 0x4000 == id;
    OrSplits(2 * rnti + q, 0, id / 0x4000, id % 0x4000, 14);
    assert BitOr(0, id % 0x4000) == id % 0x4000;
  }

  /**
   When the single-layer mask does not matter: exactly when none of the identity's bits 10 to 13 is set, and bits
   14 and 15, if set, fall on bits that codeword and RNTI have set already.
   */
  lemma MaskIrrelevantIff(rnti: nat, codeword: nat, id: nat)
    requires rnti < 0x1_0000 && id < 0x1_0000
    ensures SisoScrambleCinit(rnti, codeword, id) == MimoScrambleCinit(rnti, codeword, id)
       <==> && id % 0x4000 <= 1023
            && (id / 0x4000 % 2 == 1 ==> codeword % 2 == 1)
            && (id / 0x8000 == 1 ==> rnti % 2 == 1)
  {
    var q, high := codeword % 2, id / 0x4000;
    SmallRemainder(rnti, 0x1_0000);
    MasksCut(rnti, codeword, id);
    MimoSplits(rnti, codeword, id);
    HighBitsAdd(rnti, q, high);
    var low, rest := LowBits(id);
    MaskArithmetic(2 * rnti + q, BitOr(2 * rnti + q, high), low, rest, id % 0x400);
  }

  lemma LowBits(id: nat) returns (low: nat, rest: nat)
    ensures low == id % 0x4000 && rest < 16 && low == 0x400 * rest + id % 0x400
  {
    low := id % 0x4000;
    rest := low / 0x400;
    var blocks := id / 0x4000;
    assert id == 0x400 * (16 * blocks + rest) + low % 0x400;
  }

  lemma MaskArithmetic(fields: nat, ored: nat, low: nat, rest: nat, cut: nat)
    requires low == 0x400 * rest + cut && cut < 0x400 && rest < 16
    ensures 0x4000 * fields + cut == 0x4000 * ored + low <==> ored == fields && low <= 1023
  {
  }

  // ---------- profile ----------

  /** Slots and storage of a configuration, as the descrambler accepts them: the supported carrier with a
      data scrambling identity of ten bits. */
  function DescrambleStatus(c: Config, slots: nat): (s: Status)
    ensures s == InvalidArgument <==> slots == 0 || slots >= 24
    ensures s == Ok <==> ProfileStatus(c, slots) == Ok && c.dataId <= 1023
    ensures s == Ok ==> LayoutOk(LayoutOf(c, slots))
  {
    if slots == 0 || slots > MAX_SLOTS then InvalidArgument
    else if FixedProfile(c) && c.dataId <= 1023 then Ok
    else UnsupportedProfile
  }

  method ValidateDescramble(c: Config) returns (status: Status)
    ensures status == if FixedProfile(c) && c.dataId <= 1023 then Ok else UnsupportedProfile
  {
    if c.abi != 1 || c.size < 96 || c.flags != 0 || c.layers == 0 || c.layers > MAX_LAYERS ||
       (c.txPorts != 1 && c.txPorts != 2 && c.txPorts != 4) || c.txPorts < c.layers || c.rxAntennas != 64 ||
       c.qm != Q_M || c.symbols != 14 || c.fftSize != 2048 || c.numRb != 133 || c.rbStart != 0 || c.startSymbol != 0 ||
       c.dataSpan != 14 || c.used != 1596 || c.padded != 1664 || c.mask != 0x4 + 0x800 || c.dmrsType != 1 ||
       c.dmrsLength != 1 || c.cdmGroups != 2 || c.scid > 1 || c.codeword != 0 || c.precoding != 0 ||
       c.dataId > 1023 || !ReservedIsZero(c) {
      return UnsupportedProfile;
    }
    status := Ok;
  }

  method DescrambleProfile(c: Config, slots: nat) returns (status: Status, words: LayoutWords)
    ensures status == DescrambleStatus(c, slots)
    ensures status == Ok ==> words == CurrentLayout(c.layers)
  {
    words := CurrentLayout(0);
    if slots == 0 || slots > MAX_SLOTS {
      return InvalidArgument, words;
    }
    status := ValidateDescramble(c);
    if status == Ok {
      words := LayoutWords(2, 12, N_DATA_RE, N_DATA_PAD, c.layers * N_DATA_RE, c.layers * N_DATA_PAD);
    }
  }

  // ---------- the sign table ----------

  function SignOf(bit: bool): int {
    if bit then -1 else 1
  }

  /** Sign of a plane element after n sequence elements have been placed; tails stay 1. */
  function SignAfter(c: nat, l: Layout, slot: nat, bit: nat, i: nat, n: nat): int {
    if i < Valid(l) && GoldIndex(l, slot, bit, i) < n then SignOf(Element(c, GoldIndex(l, slot, bit, i))) else 1
  }

  ghost predicate SignAt(sign: seq<int>, c: nat, l: Layout, slot: nat, bit: nat, i: nat, n: nat)
    requires |sign| == Storage(l) && InPlane(l, slot, bit, i)
  {
    El(sign, l, slot, bit, i) == SignAfter(c, l, slot, bit, i, n)
  }

  ghost predicate SignsPlaced(sign: seq<int>, c: nat, l: Layout, n: nat) {
    && |sign| == Storage(l)
    && forall slot: nat, bit: nat, i: nat :: InPlane(l, slot, bit, i) ==> SignAt(sign, c, l, slot, bit, i, n)
  }

  lemma PlaceSign(was: seq<int>, now: seq<int>, c: nat, l: Layout, slot: nat, bit: nat, i: nat, n: nat)
    requires SignsPlaced(was, c, l, n) && InPlane(l, slot, bit, i) && i < Valid(l) && n == GoldIndex(l, slot, bit, i)
    requires |now| == |was| && PlaneBase(l, slot, bit) + i < |was|
    requires now == was[PlaneBase(l, slot, bit) + i := SignOf(Element(c, n))]
    ensures SignsPlaced(now, c, l, n + 1)
  {
    WriteStaysInPlane(now, was, l, slot, bit, i, i + 1);
    var m := n + 1;
    forall slot': nat, bit': nat, i': nat | InPlane(l, slot', bit', i')
      ensures SignAt(now, c, l, slot', bit', i', m)
    {
      assert SignAt(was, c, l, slot', bit', i', n);
      if i' < Valid(l) && GoldIndex(l, slot', bit', i') == n {
        GoldIndexInjective(l, slot, bit, i, slot', bit', i');
      }
    }
  }

  /** One bit of one symbol. */
  method PlaceNext(gold: GoldGenerator, ghost c: nat, l: Layout, slot: nat, bit: nat, i: nat, sign: array<int>,
                   ghost n: nat)
    requires gold.Valid() && gold.start == StartOf(c) && gold.Calls() == n && n == GoldIndex(l, slot, bit, i)
    requires InPlane(l, slot, bit, i) && i < Valid(l) && SignsPlaced(sign[..], c, l, n)
    requires sign as object != gold.x1 && sign as object != gold.x2
    modifies gold, gold.x1, gold.x2, sign
    ensures gold.Valid() && gold.Calls() == n + 1
    ensures SignsPlaced(sign[..], c, l, n + 1)
  {
    var bitValue := gold.Next(c);
    PlaneFits(l, slot, bit);
    ghost var was := sign[..];
    sign[PlaneBase(l, slot, bit) + i] := if bitValue then -1 else 1;
    PlaceSign(was, sign[..], c, l, slot, bit, i, n);
  }

  method PlaceSymbols(gold: GoldGenerator, ghost c: nat, l: Layout, slot: nat, sign: array<int>)
    requires gold.Valid() && gold.start == StartOf(c) && gold.Calls() == GoldIndex(l, slot, 0, 0) && slot < l.slots
    requires SignsPlaced(sign[..], c, l, GoldIndex(l, slot, 0, 0))
    requires sign as object != gold.x1 && sign as object != gold.x2
    modifies gold, gold.x1, gold.x2, sign
    ensures gold.Valid() && gold.Calls() == GoldIndex(l, slot, 0, Valid(l))
    ensures SignsPlaced(sign[..], c, l, GoldIndex(l, slot, 0, Valid(l)))
  {
    for symbol := 0 to Valid(l)
      invariant gold.Valid() && gold.Calls() == GoldIndex(l, slot, 0, symbol)
      invariant SignsPlaced(sign[..], c, l, GoldIndex(l, slot, 0, symbol))
    {
      for bit := 0 to Q_M
        invariant gold.Valid() && gold.Calls() == GoldIndex(l, slot, bit, symbol)
        invariant SignsPlaced(sign[..], c, l, GoldIndex(l, slot, bit, symbol))
      {
        PlaceNext(gold, c, l, slot, bit, symbol, sign, GoldIndex(l, slot, bit, symbol));
      }
    }
  }

  lemma NextSlot(l: Layout, slot: nat)
    ensures GoldIndex(l, slot, 0, Valid(l)) == GoldIndex(l, slot + 1, 0, 0)
  {
    assert (slot + 1) * Valid(l) == slot * Valid(l) + Valid(l);
  }

  /** Every valid element carries the sign of its own sequence element, every tail element 1. */
  ghost predicate SignTable(sign: seq<int>, c: nat, l: Layout) {
    && |sign| == Storage(l)
    && forall slot: nat, bit: nat, i: nat :: InPlane(l, slot, bit, i) ==> SignEntry(sign, c, l, slot, bit, i)
  }

  ghost predicate SignEntry(sign: seq<int>, c: nat, l: Layout, slot: nat, bit: nat, i: nat)
    requires |sign| == Storage(l) && InPlane(l, slot, bit, i)
  {
    El(sign, l, slot, bit, i) == if i < Valid(l) then SignOf(Element(c, GoldIndex(l, slot, bit, i))) else 1
  }

  lemma AllPlaced(sign: seq<int>, c: nat, l: Layout)
    requires SignsPlaced(sign, c, l, GoldIndex(l, l.slots, 0, 0))
    ensures SignTable(sign, c, l)
  {
    forall slot: nat, bit: nat, i: nat | InPlane(l, slot, bit, i)
      ensures SignEntry(sign, c, l, slot, bit, i)
    {
      assert SignAt(sign, c, l, slot, bit, i, GoldIndex(l, l.slots, 0, 0));
      BlockOrder(slot, l.slots, Valid(l));
    }
  }

  /** Fill a sign table from the ring generator. */
  method FillSigns(c: nat, l: Layout) returns (sign: array<int>)
    ensures fresh(sign) && SignTable(sign[..], c, l)
  {
    NonNeg(l.slots, SlotSize(l));
    sign := new int[Storage(l)](_ => 1);
    var gold := new GoldGenerator(c);
    assert GoldIndex(l, 0, 0, 0) == 0;
    OnesPlaced(sign[..], c, l);
    for slot := 0 to l.slots
      invariant gold.Valid() && fresh(gold) && fresh(gold.x1) && fresh(gold.x2) && gold.start == StartOf(c)
      invariant gold.Calls() == GoldIndex(l, slot, 0, 0)
      invariant SignsPlaced(sign[..], c, l, GoldIndex(l, slot, 0, 0))
    {
      PlaceSymbols(gold, c, l, slot, sign);
      NextSlot(l, slot);
    }
    AllPlaced(sign[..], c, l);
  }

  /** The sign table of a configuration: refused for an unsupported profile, another layout or too small a
      destination; otherwise the standard's sequence for its RNTI and data scrambling identity. */
  method BuildGoldSign(c: Config, words: LayoutWords, slots: nat, capacity: nat)
    returns (status: Status, sign: array<int>)
    requires Widths(c)
    ensures status == if DescrambleStatus(c, slots) != Ok then DescrambleStatus(c, slots)
                      else if words != CurrentLayout(c.layers) then LayoutMismatch
                      else if capacity < Storage(LayoutOf(c, slots)) then ResourceTooSmall
                      else Ok
    ensures status == Ok ==> SignTable(sign[..], ScrambleCinit(c.rnti, 0, c.dataId), LayoutOf(c, slots))
  {
    sign := new int[0];
    var expected;
    status, expected := DescrambleProfile(c, slots);
    if status != Ok {
      return;
    }
    if words != expected {
      return LayoutMismatch, sign;
    }
    if capacity < Storage(LayoutOf(c, slots)) {
      return ResourceTooSmall, sign;
    }
    FieldsDoNotOverlap(c.rnti, c.codeword, c.dataId);
    sign := FillSigns(MimoScrambleCinit(c.rnti, c.codeword, c.dataId), LayoutOf(c, slots));
  }

  lemma OnesPlaced(sign: seq<int>, c: nat, l: Layout)
    requires |sign| == Storage(l) && forall p :: 0 <= p < |sign| ==> sign[p] == 1
    ensures SignsPlaced(sign, c, l, 0)
  {
    forall slot: nat, bit: nat, i: nat | InPlane(l, slot, bit, i)
      ensures SignAt(sign, c, l, slot, bit, i, 0)
    {
      PlaneFits(l, slot, bit);
    }
  }

  // ---------- the array form ----------

  /** Planes before (slot, bit) carry their signs, the others are still all ones. */
  ghost predicate BakedUpTo(sign: seq<int>, c: nat, l: Layout, slot: nat, bit: nat) {
    && |sign| == Storage(l)
    && forall slot': nat, bit': nat, i: nat :: InPlane(l, slot', bit', i) ==>
         if Earlier(slot', bit', slot, bit) then SignEntry(sign, c, l, slot', bit', i)
         else El(sign, l, slot', bit', i) == 1
  }

  predicate Earlier(slot': nat, bit': nat, slot: nat, bit: nat) {
    slot' < slot || (slot' == slot && bit' < bit)
  }

  lemma BakeStep(was: seq<int>, now: seq<int>, c: nat, l: Layout, slot: nat, bit: nat)
    requires BakedUpTo(was, c, l, slot, bit) && slot < l.slots && bit < Q_M
    requires OnlyPlane(now, was, l, slot, bit, 0, Stride(l))
    requires forall i: nat :: InPlane(l, slot, bit, i) ==> SignEntry(now, c, l, slot, bit, i)
    ensures BakedUpTo(now, c, l, slot, bit + 1)
  {
    var next := bit + 1;
    forall slot': nat, bit': nat, i: nat | InPlane(l, slot', bit', i)
      ensures if Earlier(slot', bit', slot, next) then SignEntry(now, c, l, slot', bit', i)
              else El(now, l, slot', bit', i) == 1
    {
      if slot' != slot || bit' != bit {
        assert Earlier(slot', bit', slot, bit) <==> Earlier(slot', bit', slot, next);
        assert El(now, l, slot', bit', i) == El(was, l, slot', bit', i);
      }
    }
  }

  lemma BakeNextSlot(sign: seq<int>, c: nat, l: Layout, slot: nat)
    requires BakedUpTo(sign, c, l, slot, Q_M)
    ensures BakedUpTo(sign, c, l, slot + 1, 0)
  {
    var next := slot + 1;
    forall slot': nat, bit': nat, i: nat | InPlane(l, slot', bit', i)
      ensures if Earlier(slot', bit', next, 0) then SignEntry(sign, c, l, slot', bit', i)
              else El(sign, l, slot', bit', i) == 1
    {
      assert Earlier(slot', bit', next, 0) <==> Earlier(slot', bit', slot, Q_M);
    }
  }

  method BakePlane(gold: seq<bool>, c: nat, l: Layout, slot: nat, bit: nat, sign: array<int>)
    requires |gold| == Q_M * (l.slots * Valid(l)) && (forall k: nat :: k < |gold| ==> gold[k] == Element(c, k))
    requires sign.Length == Storage(l) && slot < l.slots && bit < Q_M
    requires forall i: nat :: InPlane(l, slot, bit, i) ==> El(sign[..], l, slot, bit, i) == 1
    modifies sign
    ensures OnlyPlane(sign[..], old(sign[..]), l, slot, bit, 0, Stride(l))
    ensures forall i: nat :: InPlane(l, slot, bit, i) ==> SignEntry(sign[..], c, l, slot, bit, i)
  {
    ghost var was := sign[..];
    PlaneFits(l, slot, bit);
    BlockOrder(slot, l.slots, Valid(l));
    forall re | 0 <= re < Valid(l) {
      sign[PlaneBase(l, slot, bit) + re] := SignOf(gold[GoldIndex(l, slot, bit, re)]);
    }
    WriteStaysInPlane(sign[..], was, l, slot, bit, 0, Stride(l));
    ghost var now := sign[..];
    forall i: nat | InPlane(l, slot, bit, i)
      ensures SignEntry(now, c, l, slot, bit, i)
    {
      assert El(was, l, slot, bit, i) == 1;
    }
  }

  /** A sign table from the array recurrence, plane by plane. */
  method BakeSigns(c: nat, l: Layout) returns (sign: array<int>)
    ensures fresh(sign) && SignTable(sign[..], c, l)
  {
    NonNeg(l.slots, SlotSize(l));
    NonNeg(l.slots, Valid(l));
    sign := new int[Storage(l)](_ => 1);
    var gold := GoldArray(c, Q_M * (l.slots * Valid(l)));
    OnesBaked(sign[..], c, l);
    for slot := 0 to l.slots
      invariant BakedUpTo(sign[..], c, l, slot, 0)
    {
      for bit := 0 to Q_M
        invariant BakedUpTo(sign[..], c, l, slot, bit)
      {
        ghost var was := sign[..];
        assert !Earlier(slot, bit, slot, bit);
        BakePlane(gold, c, l, slot, bit, sign);
        BakeStep(was, sign[..], c, l, slot, bit);
      }
      BakeNextSlot(sign[..], c, l, slot);
    }
    forall slot: nat, bit: nat, i: nat | InPlane(l, slot, bit, i)
      ensures SignEntry(sign[..], c, l, slot, bit, i)
    {
      assert Earlier(slot, bit, l.slots, 0);
    }
  }

  /** The single-layer receiver's table: the standard's sequence for the identities cut to 16 and 10 bits. */
  method BakeGoldSign(rnti: nat, cellId: nat, l: Layout) returns (sign: array<int>)
    ensures fresh(sign) && SignTable(sign[..], ScrambleCinit(rnti % 0x1_0000, 0, cellId % 0x400), l)
  {
    MasksCut(rnti, 0, cellId);
    sign := BakeSigns(SisoScrambleCinit(rnti, 0, cellId), l);
  }

  lemma OnesBaked(sign: seq<int>, c: nat, l: Layout)
    requires |sign| == Storage(l) && forall p :: 0 <= p < |sign| ==> sign[p] == 1
    ensures BakedUpTo(sign, c, l, 0, 0)
  {
    forall slot: nat, bit: nat, i: nat | InPlane(l, slot, bit, i)
      ensures El(sign, l, slot, bit, i) == 1
    {
      PlaneFits(l, slot, bit);
    }
  }

  /** Element by element: the sign of symbol i's bit is that of sequence element 8 * (slot * valid + i) + bit, minus
      one for a set element; tails are one. */
  lemma SignIsSequence(sign: seq<int>, c: nat, l: Layout, slot: nat, bit: nat, i: nat, valid: nat, k: nat)
    requires SignTable(sign, c, l) && slot < l.slots && bit < 8 && i < 19200 * l.layers && valid == 19152 * l.layers
    requires k == 8 * (slot * valid + i) + bit
    ensures InPlane(l, slot, bit, i)
    ensures El(sign, l, slot, bit, i) == if i < valid && X1(k + 1600) != X2(StartOf(c), k + 1600) then -1 else 1
  {
    SequencePlace(l, slot, bit, i, valid);
    assert SignEntry(sign, c, l, slot, bit, i);
  }

  /** The ring generator and the array recurrence give the same table: it is determined by the initial
      value and the layout. */
  lemma SignTableUnique(a: seq<int>, b: seq<int>, c: nat, l: Layout)
    requires SignTable(a, c, l) && SignTable(b, c, l) && l.layers > 0
    ensures a == b
  {
    forall slot: nat, bit: nat, i: nat | InPlane(l, slot, bit, i)
      ensures El(a, l, slot, bit, i) == El(b, l, slot, bit, i)
    {
      assert SignEntry(a, c, l, slot, bit, i) && SignEntry(b, c, l, slot, bit, i);
    }
    PlanesEqual(l, a, b);
  }
}
