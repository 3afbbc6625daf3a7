/** The rate-matching profile: how one codeword's symbols are shared out among the code blocks. */
module RateProfile {
  import opened Arith
  import opened Bits
  import opened PuschTypes

  const Q_M: nat := 8
  const N_DATA_RE: nat := 19152
  const N_DATA_PAD: nat := 19200
  const C_NUM: nat := 143
  const N_2Z: nat := 768
  const N_CB_BUF: nat := 25344
  const LDPC_N: nat := 26112
  const MAX_SLOTS: nat := 23

  /** Transmission layers and slots of one codeword. */
  datatype Layout = Layout(layers: nat, slots: nat)

  predicate LayoutOk(l: Layout) {
    1 <= l.layers <= 4 && 1 <= l.slots <= 23
  }

  /** Valid symbols of a slot's bit plane. */
  function Valid(l: Layout): nat {
    l.layers * N_DATA_RE
  }

  /** Storage of a slot's bit plane, tail included. */
  function Stride(l: Layout): nat {
    l.layers * N_DATA_PAD
  }

  /** Symbols of a whole codeword. */
  function Symbols(l: Layout): nat {
    l.slots * Valid(l)
  }

  /** Storage of one slot. */
  function SlotSize(l: Layout): nat {
    Q_M * Stride(l)
  }

  /** Storage of a codeword. */
  function Storage(l: Layout): nat {
    l.slots * SlotSize(l)
  }

  // ---------- descriptors ----------

  /** Coded bits, circular-buffer start and length, first symbol of one code block. */
  datatype Descriptor = Descriptor(e: nat, k0: nat, ncb: nat, offset: nat)

  function TotalUnits(slots: nat): nat {
    slots * N_DATA_RE
  }

  /** Units of code block cb: the later blocks take one more when the units do not divide evenly. */
  function Units(slots: nat, cb: nat): nat {
    TotalUnits(slots) / C_NUM + if cb >= C_NUM - TotalUnits(slots) % C_NUM then 1 else 0
  }

  /** Units of the blocks before cb. */
  function UnitsBefore(slots: nat, cb: nat): nat {
    if cb == 0 then 0 else UnitsBefore(slots, cb - 1) + Units(slots, cb - 1)
  }

  lemma {:induction false} UnitsBeforeClosed(slots: nat, cb: nat)
    requires cb <= C_NUM
    ensures var low, first := TotalUnits(slots) / C_NUM, C_NUM - TotalUnits(slots) % C_NUM;
            UnitsBefore(slots, cb) == cb * low + if cb > first then cb - first else 0
  {
    if cb > 0 {
      var low := TotalUnits(slots) / C_NUM;
      UnitsBeforeClosed(slots, cb - 1);
      assert cb * low == (cb - 1) * low + low;
    }
  }

  /** No unit is lost or shared twice. */
  lemma UnitsCoverAll(slots: nat)
    ensures UnitsBefore(slots, C_NUM) == TotalUnits(slots)
  {
    UnitsBeforeClosed(slots, C_NUM);
  }

  /** Symbols of code block cb in every bit plane, and of the blocks before it. */
  function BlockSymbols(l: Layout, cb: nat): nat {
    l.layers * Units(l.slots, cb)
  }

  function SymbolsBefore(l: Layout, cb: nat): nat {
    if cb == 0 then 0 else SymbolsBefore(l, cb - 1) + BlockSymbols(l, cb - 1)
  }

  lemma {:induction false} SymbolsBeforeUnits(l: Layout, cb: nat)
    ensures SymbolsBefore(l, cb) == l.layers * UnitsBefore(l.slots, cb)
  {
    if cb > 0 {
      SymbolsBeforeUnits(l, cb - 1);
      Distribute(l.layers, UnitsBefore(l.slots, cb - 1), Units(l.slots, cb - 1));
    }
  }

  lemma Distribute(a: nat, b: nat, c: nat)
    ensures a * (b + c) == a * b + a * c
  {
  }

  lemma {:induction false} SymbolsBeforeGrows(l: Layout, cb: nat, cb': nat)
    requires cb <= cb'
    ensures SymbolsBefore(l, cb) <= SymbolsBefore(l, cb')
  {
    if cb < cb' {
      SymbolsBeforeGrows(l, cb, cb' - 1);
      NonNeg(l.layers, Units(l.slots, cb' - 1));
    }
  }

  /** The blocks' symbol ranges tile the codeword. */
  lemma SymbolsCoverAll(l: Layout)
    ensures SymbolsBefore(l, C_NUM) == Symbols(l)
  {
    SymbolsBeforeUnits(l, C_NUM);
    UnitsCoverAll(l.slots);
    assert l.layers * (l.slots * N_DATA_RE) == l.slots * (l.layers * N_DATA_RE);
  }

  /** At most four times around the circular buffer. */
  lemma BlockSymbolsBound(l: Layout, cb: nat)
    requires LayoutOk(l)
    ensures 1 <= BlockSymbols(l, cb) && Q_M * BlockSymbols(l, cb) <= 4 * N_CB_BUF
  {
    var u := Units(l.slots, cb);
    assert 133 <= u <= 3081;
    assert l.layers * u == u * l.layers;
    if l.layers == 1 {
    } else if l.layers == 2 {
    } else if l.layers == 3 {
    } else {
      assert l.layers == 4;
    }
  }

  /** Ranges in order, without gap or overlap, from the first symbol to the last. */
  ghost predicate Partition(l: Layout, d: seq<Descriptor>) {
    && |d| == 143 && d[0].offset == 0
    && (forall cb :: 0 <= cb < |d| - 1 ==> Adjacent(d[cb], d[cb + 1]))
    && d[142].offset + d[142].e / 8 == l.slots * (l.layers * 19152)
  }

  /** The next block starts where this one ends and has the same size or one quantum more. */
  ghost predicate Adjacent(d: Descriptor, next: Descriptor) {
    d.e % 8 == 0 && next.offset == d.offset + d.e / 8 && d.e <= next.e
  }

  ghost predicate DescribesUpTo(l: Layout, d: seq<Descriptor>, n: nat) {
    && |d| == n <= C_NUM
    && forall cb: nat :: cb < n ==> Describes(l, d[cb], cb)
  }

  ghost predicate Describes(l: Layout, d: Descriptor, cb: nat) {
    d == Descriptor(Q_M * BlockSymbols(l, cb), 0, N_CB_BUF, SymbolsBefore(l, cb))
  }

  lemma DescribedPartition(l: Layout, d: seq<Descriptor>)
    requires LayoutOk(l) && DescribesUpTo(l, d, C_NUM)
    ensures Partition(l, d)
  {
    assert Describes(l, d[0], 0);
    forall cb | 0 <= cb < |d| - 1
      ensures Adjacent(d[cb], d[cb + 1])
    {
      assert Describes(l, d[cb], cb) && Describes(l, d[cb + 1], cb + 1);
      NeighboursAdjacent(l, d[cb], d[cb + 1], cb);
    }
    assert Describes(l, d[C_NUM - 1], C_NUM - 1);
    EighthOf(BlockSymbols(l, C_NUM - 1));
    SymbolsCoverAll(l);
  }

  /** Every descriptor in closed form: the slots' 19152 units each are shared out among 143 blocks, the last of which
      take one more; a unit is eight bits of every layer. */
  lemma DescriptorIs(l: Layout, d: seq<Descriptor>, cb: nat, low: nat, first: nat)
    requires DescribesUpTo(l, d, C_NUM) && cb < 143
    requires low == l.slots * 19152 / 143 && first == 143 - l.slots * 19152 % 143
    ensures |d| == 143 && cb * low >= 0
    ensures d[cb] == Descriptor(8 * (l.layers * (low + if cb >= first then 1 else 0)), 0, 25344,
                                l.layers * (cb * low + if cb > first then cb - first else 0))
  {
    NonNeg(cb, low);
    assert Describes(l, d[cb], cb);
    SymbolsBeforeUnits(l, cb);
    UnitsBeforeClosed(l.slots, cb);
  }

  lemma NeighboursAdjacent(l: Layout, d: Descriptor, next: Descriptor, cb: nat)
    requires Describes(l, d, cb) && Describes(l, next, cb + 1)
    ensures Adjacent(d, next)
  {
    UnitsSteps(l, cb, cb + 1);
    EighthOf(BlockSymbols(l, cb));
  }

  lemma EighthOf(x: nat)
    ensures Q_M * x / Q_M == x && Q_M * x % Q_M == 0
  {
  }

  /** Any two blocks' sizes differ by at most one quantum. */
  lemma SizesWithinOneQuantum(l: Layout, d: seq<Descriptor>, cb: nat, cb': nat)
    requires LayoutOk(l) && DescribesUpTo(l, d, C_NUM) && cb < C_NUM && cb' < C_NUM
    ensures d[cb].e <= d[cb'].e + Q_M * l.layers
  {
    assert Describes(l, d[cb], cb) && Describes(l, d[cb'], cb');
    UnitsSteps(l, cb', cb);
  }

  lemma UnitsSteps(l: Layout, cb: nat, cb': nat)
    ensures cb <= cb' ==> BlockSymbols(l, cb) <= BlockSymbols(l, cb')
    ensures BlockSymbols(l, cb') <= BlockSymbols(l, cb) + l.layers
  {
    var low := TotalUnits(l.slots) / C_NUM;
    Distribute(l.layers, low, 1);
  }

  /** The code-block share of a configuration and slot count. */
  function LayoutOf(c: Config, slots: nat): Layout {
    Layout(c.layers, slots)
  }

  /** Accepted exactly for 1 to 23 slots of the supported carrier; the slot count is looked at first. */
  function ProfileStatus(c: Config, slots: nat): (s: Status)
    ensures s == InvalidArgument <==> slots == 0 || slots >= 24
    ensures s == Ok <==> FixedProfile(c) && 1 <= slots <= 23
    ensures s == Ok ==> LayoutOk(LayoutOf(c, slots))
  {
    if slots == 0 || slots > MAX_SLOTS then InvalidArgument
    else if FixedProfile(c) then Ok
    else UnsupportedProfile
  }

  /** What an accepted configuration is: one to four layers on one, two or four ports, 64 antennas, 256-QAM, and the
      carrier of 133 resource blocks with pilots in symbols 2 and 11. */
  lemma AcceptedCarrier(c: Config, slots: nat)
    ensures ProfileStatus(c, slots) == Ok
       <==> && 1 <= slots <= 23 && c.abi == 1 && c.size >= 96 && c.flags == 0 && 1 <= c.layers <= 4
            && (c.txPorts == 1 || c.txPorts == 2 || c.txPorts == 4) && c.layers <= c.txPorts && c.rxAntennas == 64
            && c.qm == 8 && c.symbols == 14 && c.fftSize == 2048 && c.numRb == 133 && c.rbStart == 0
            && c.startSymbol == 0 && c.dataSpan == 14 && c.used == 12 * c.numRb && c.padded == 1664
            && c.mask == Pow2(2) + Pow2(11) && c.dmrsType == 1 && c.dmrsLength == 1 && c.cdmGroups == 2 && c.scid <= 1
            && c.codeword == 0 && c.precoding == 0 && forall i :: 0 <= i < |c.reserved| ==> c.reserved[i] == 0
  {
    assert Pow2(2) == 4 && Pow2(11) == 512 * Pow2(2);
  }

  /** Field by field, as the operator tests them. */
  method ValidateConfig(c: Config) returns (status: Status)
    ensures status == if FixedProfile(c) then Ok else UnsupportedProfile
  {
    if c.abi != 1 || c.size < 96 || c.flags != 0 || c.layers == 0 || c.layers > MAX_LAYERS ||
       (c.txPorts != 1 && c.txPorts != 2 && c.txPorts != 4) || c.txPorts < c.layers || c.rxAntennas != 64 ||
       c.qm != Q_M || c.symbols != 14 || c.fftSize != 2048 || c.numRb != 133 || c.rbStart != 0 || c.startSymbol != 0 ||
       c.dataSpan != 14 || c.used != 1596 || c.padded != 1664 || c.mask != 0x4 + 0x800 || c.dmrsType != 1 ||
       c.dmrsLength != 1 || c.cdmGroups != 2 || c.scid > 1 || c.codeword != 0 || c.precoding != 0 ||
        !ReservedIsZero(c) {
      return UnsupportedProfile;
    }
    status := Ok;
  }

  /** The descriptors of a layout are determined by it. */
  lemma DescribedOnce(l: Layout, d: seq<Descriptor>, d': seq<Descriptor>)
    requires DescribesUpTo(l, d, C_NUM) && DescribesUpTo(l, d', C_NUM)
    ensures d == d'
  {
    forall cb: nat | cb < C_NUM
      ensures d[cb] == d'[cb]
    {
      assert Describes(l, d[cb], cb) && Describes(l, d'[cb], cb);
    }
  }

  lemma TotalBits(l: Layout)
    ensures l.slots * Q_M * (l.layers * N_DATA_RE) == Q_M * Symbols(l)
  {
    assert l.slots * Q_M * (l.layers * N_DATA_RE) == Q_M * (l.slots * (l.layers * N_DATA_RE));
  }

  lemma QuantumUnits(layers: nat, units: nat)
    ensures layers * Q_M * units == Q_M * (layers * units)
  {
  }

  /** Fill the descriptors one after the other. */
  method Describe(l: Layout) returns (d: seq<Descriptor>, offset: nat, sum: nat)
    ensures DescribesUpTo(l, d, C_NUM)
    ensures offset == SymbolsBefore(l, C_NUM) && sum == Q_M * SymbolsBefore(l, C_NUM)
  {
    d := [];
    var quantum := l.layers * Q_M;
    var total := l.slots * N_DATA_RE;
    var low, high := total / C_NUM, total % C_NUM;
    var first := C_NUM - high;
    offset, sum := 0, 0;
    for cb := 0 to C_NUM
      invariant DescribesUpTo(l, d, cb)
      invariant offset == SymbolsBefore(l, cb) && sum == Q_M * SymbolsBefore(l, cb)
    {
      var units := low + if cb >= first then 1 else 0;
      var e := quantum * units;
      QuantumUnits(l.layers, units);
      assert e == Q_M * BlockSymbols(l, cb);
      d := d + [Descriptor(e, 0, N_CB_BUF, offset)];
      offset := offset + e / Q_M;
      sum := sum + e;
    }
  }

  /**
   The profile builder. It checks its own sums at the end; that check never fails, so every supported
   configuration and slot count is accepted, with descriptors that partition the codeword.
   */
  method BuildCurrentProfile(c: Config, slots: nat) returns (status: Status, words: LayoutWords, d: seq<Descriptor>)
    ensures status == ProfileStatus(c, slots)
    ensures status == Ok ==> words == CurrentLayout(c.layers)
    ensures status == Ok ==> DescribesUpTo(LayoutOf(c, slots), d, C_NUM) && Partition(LayoutOf(c, slots), d)
  {
    words, d := CurrentLayout(0), [];
    if slots == 0 || slots > MAX_SLOTS {
      return InvalidArgument, words, d;
    }
    status := ValidateConfig(c);
    if status != Ok {
      return;
    }
    var l := LayoutOf(c, slots);
    words := LayoutWords(2, 12, N_DATA_RE, N_DATA_PAD, c.layers * N_DATA_RE, c.layers * N_DATA_PAD);
    var offset, sum;
    d, offset, sum := Describe(l);
    SymbolsCoverAll(l);
    TotalBits(l);
    if sum != l.slots * Q_M * (l.layers * N_DATA_RE) || offset != l.slots * (l.layers * N_DATA_RE) {
      return UnsupportedProfile, words, [];
    }
    DescribedPartition(l, d);
  }

  // ---------- where a symbol is stored ----------

  /** First element of a bit plane. */
  function PlaneBase(l: Layout, slot: nat, bit: nat): nat {
    NonNeg(slot, SlotSize(l));
    NonNeg(bit, Stride(l));
    slot * SlotSize(l) + bit * Stride(l)
  }

  /** Slot and position of a symbol of the codeword. */
  function SlotOf(l: Layout, logical: nat): nat
    requires LayoutOk(l)
  {
    QuotientNat(logical, Valid(l));
    logical / Valid(l)
  }

  function SymbolOf(l: Layout, logical: nat): (s: nat)
    requires LayoutOk(l)
    ensures s < Valid(l)
  {
    QuotientNat(logical, Valid(l));
    logical % Valid(l)
  }

  /** Storage index of symbol `logical` of bit plane `bit`: slots are stored one after the other, each
      with Q_M planes, each plane with a tail after its valid symbols. */
  function InputIndex(l: Layout, bit: nat, logical: nat): nat
    requires LayoutOk(l)
  {
    PlaneBase(l, SlotOf(l, logical), bit) + SymbolOf(l, logical)
  }

  lemma SlotBelow(l: Layout, logical: nat)
    requires LayoutOk(l) && logical < Symbols(l)
    ensures SlotOf(l, logical) < l.slots
  {
    var s, v := logical / Valid(l), Valid(l);
    assert logical == s * v + logical % v;
    if s >= l.slots {
      MulGrows(l.slots, s, v);
    }
  }

  lemma MulGrows(a: nat, b: nat, c: nat)
    requires a <= b
    ensures a * c <= b * c
  {
    assert b * c == a * c + (b - a) * c;
    NonNeg(b - a, c);
  }

  /** Symbol e of a run that starts at `logical` and stays inside the slot is stored e places on. */
  lemma RunIsContiguous(l: Layout, bit: nat, logical: nat, e: nat)
    requires LayoutOk(l) && SymbolOf(l, logical) + e < Valid(l)
    ensures InputIndex(l, bit, logical + e) == InputIndex(l, bit, logical) + e
    ensures SlotOf(l, logical + e) == SlotOf(l, logical)
  {
    DivModUnique(logical + e, Valid(l), logical / Valid(l), logical % Valid(l) + e);
  }

  /** Every symbol of every plane is stored before the end, the rest of its plane too. */
  lemma IndexInStorage(l: Layout, bit: nat, logical: nat)
    requires LayoutOk(l) && bit < Q_M && logical < Symbols(l)
    ensures InputIndex(l, bit, logical) + (Valid(l) - SymbolOf(l, logical)) <= Storage(l)
  {
    SlotBelow(l, logical);
    BlockOrder(SlotOf(l, logical), l.slots, SlotSize(l));
    BlockOrder(bit, Q_M, Stride(l));
  }
}
