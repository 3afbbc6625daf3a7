/** The transmitter's rate matching: selection from the circular buffers and bit interleaving into planes. */
module RateMatch {
  import opened Arith
  import opened RateProfile
  import opened Planes
  import opened CircularBuffer
  import opened RateDematch

  /** One code block's buffer of coded bits per entry. */
  predicate Buffers(code: seq<seq<int>>) {
    |code| == C_NUM && forall cb :: 0 <= cb < C_NUM ==> |code[cb]| == N_CB_BUF
  }

  /** Coded bit that symbol j of a block carries in a bit plane. */
  function Carried(code: seq<seq<int>>, l: Layout, cb: nat, bit: nat, j: nat): int
    requires Buffers(code) && cb < C_NUM
  {
    code[cb][Position(0, PlaneStart(bit, BlockSymbols(l, cb)) + j)]
  }

  /** The transmitter's segment sizes are the receiver's. */
  method Segments(l: Layout) returns (eq: seq<nat>)
    ensures |eq| == C_NUM && forall cb: nat :: cb < C_NUM ==> eq[cb] == BlockSymbols(l, cb)
  {
    var symbols0, gamma := l.slots * N_DATA_RE / C_NUM, l.slots * N_DATA_RE % C_NUM;
    var symbols := seq(C_NUM, cb => symbols0);
    symbols := symbols[..C_NUM - gamma] + seq(gamma, cb requires 0 <= cb < gamma && |symbols| == C_NUM =>
      symbols[C_NUM - gamma + cb] + 1);
    eq := seq(C_NUM, cb requires 0 <= cb < C_NUM && |symbols| == C_NUM => TimesLayers(l, symbols[cb]));
    forall cb: nat | cb < C_NUM
      ensures eq[cb] == BlockSymbols(l, cb)
    {
      assert symbols[cb] == Units(l.slots, cb);
    }
  }

  function TimesLayers(l: Layout, units: nat): nat {
    NonNeg(l.layers, units);
    l.layers * units
  }

  ghost predicate SerialAtBlock(serial: seq<int>, code: seq<seq<int>>, l: Layout, bit: nat, cb: nat)
    requires Buffers(code) && cb < C_NUM
  {
    && SymbolsBefore(l, cb) + BlockSymbols(l, cb) <= |serial|
    && forall j: nat :: j < BlockSymbols(l, cb) ==> serial[SymbolsBefore(l, cb) + j] == Carried(code, l, cb, bit, j)
  }

  /** The plane's bits of the first n blocks, one block after the other. */
  ghost predicate SerialIs(serial: seq<int>, code: seq<seq<int>>, l: Layout, bit: nat, n: nat)
    requires Buffers(code) && n <= C_NUM
  {
    && |serial| == SymbolsBefore(l, n)
    && forall cb: nat :: cb < n ==> SerialAtBlock(serial, code, l, bit, cb)
  }

  lemma SerialGrows(serial: seq<int>, part: seq<int>, code: seq<seq<int>>, l: Layout, bit: nat, n: nat)
    requires Buffers(code) && n < C_NUM && SerialIs(serial, code, l, bit, n) && |part| == BlockSymbols(l, n)
    requires forall j: nat :: j < |part| ==> part[j] == Carried(code, l, n, bit, j)
    ensures SerialIs(serial + part, code, l, bit, n + 1)
  {
    var all := serial + part;
    forall cb: nat | cb < n + 1
      ensures SerialAtBlock(all, code, l, bit, cb)
    {
      if cb < n {
        assert SerialAtBlock(serial, code, l, bit, cb);
      }
    }
  }

  method SerialPlane(code: seq<seq<int>>, l: Layout, bit: nat, eq: seq<nat>) returns (serial: seq<int>)
    requires Buffers(code) && |eq| == C_NUM && forall cb: nat :: cb < C_NUM ==> eq[cb] == BlockSymbols(l, cb)
    ensures SerialIs(serial, code, l, bit, C_NUM)
  {
    serial := [];
    for cb := 0 to C_NUM
      invariant SerialIs(serial, code, l, bit, cb)
    {
      PlaneStartIsProduct(bit, eq[cb]);
      NonNeg(bit, eq[cb]);
      var part := seq(eq[cb], j requires 0 <= j < eq[cb] && cb < C_NUM && Buffers(code) && bit * eq[cb] >= 0 =>
        code[cb][(bit * eq[cb] + j) % N_CB_BUF]);
      SerialGrows(serial, part, code, l, bit, cb);
      serial := serial + part;
    }
  }

  /** Every symbol of every block carries its coded bit; tails are zero. */
  ghost predicate PlaneMatched(out: seq<int>, l: Layout, bit: nat, serial: seq<int>, n: nat)
    requires |out| == Storage(l) && |serial| == Symbols(l)
  {
    forall slot: nat, i: nat :: slot < n && InPlane(l, slot, bit, i) ==> EntryMatched(out, l, bit, serial, slot, i)
  }

  ghost predicate EntryMatched(out: seq<int>, l: Layout, bit: nat, serial: seq<int>, slot: nat, i: nat)
    requires |out| == Storage(l) && |serial| == Symbols(l) && InPlane(l, slot, bit, i)
  {
    El(out, l, slot, bit, i) == SerialElement(l, serial, slot, i)
  }

  function SerialElement(l: Layout, serial: seq<int>, slot: nat, i: nat): int
    requires |serial| == Symbols(l) && slot < l.slots
  {
    BlockOrder(slot, l.slots, Valid(l));
    if i < Valid(l) then serial[Logical(l, slot, i)] else 0
  }

  ghost predicate Matched(out: seq<int>, code: seq<seq<int>>, l: Layout) {
    && Buffers(code) && |out| == Storage(l)
    && forall bit: nat :: bit < Q_M ==> BitMatched(out, code, l, bit)
  }

  ghost predicate BitMatched(out: seq<int>, code: seq<seq<int>>, l: Layout, bit: nat)
    requires Buffers(code) && |out| == Storage(l)
  {
    exists serial: seq<int> :: SerialFor(out, code, l, bit, serial)
  }

  ghost predicate SerialFor(out: seq<int>, code: seq<seq<int>>, l: Layout, bit: nat, serial: seq<int>)
    requires Buffers(code) && |out| == Storage(l)
  {
    && |serial| == Symbols(l) && SerialIs(serial, code, l, bit, C_NUM)
    && PlaneMatched(out, l, bit, serial, l.slots)
  }

  /** Write one plane of one slot. */
  method WriteSlot(out: array<int>, l: Layout, bit: nat, slot: nat, serial: seq<int>)
    requires out.Length == Storage(l) && |serial| == Symbols(l) && slot < l.slots && bit < Q_M
    requires PlaneMatched(out[..], l, bit, serial, slot)
    requires forall i: nat :: InPlane(l, slot, bit, i) ==> El(out[..], l, slot, bit, i) == 0
    modifies out
    ensures PlaneMatched(out[..], l, bit, serial, slot + 1)
    ensures OnlyPlane(out[..], old(out[..]), l, slot, bit, 0, Valid(l))
  {
    ghost var was := out[..];
    PlaneFits(l, slot, bit);
    BlockOrder(slot, l.slots, Valid(l));
    var to, from := PlaneBase(l, slot, bit), Logical(l, slot, 0);
    forall i | 0 <= i < Valid(l) {
      out[to + i] := serial[from + i];
    }
    WriteStaysInPlane(out[..], was, l, slot, bit, 0, Valid(l));
    SlotMatched(was, out[..], l, bit, slot, serial);
  }

  lemma SlotMatched(was: seq<int>, now: seq<int>, l: Layout, bit: nat, slot: nat, serial: seq<int>)
    requires |was| == |now| == Storage(l) && |serial| == Symbols(l) && slot < l.slots && bit < Q_M
    requires PlaneMatched(was, l, bit, serial, slot) && OnlyPlane(now, was, l, slot, bit, 0, Valid(l))
    requires forall i: nat :: InPlane(l, slot, bit, i) ==> El(was, l, slot, bit, i) == 0
    requires forall i: nat :: i < Valid(l) ==> InPlane(l, slot, bit, i) && EntryMatched(now, l, bit, serial, slot, i)
    ensures PlaneMatched(now, l, bit, serial, slot + 1)
  {
    forall slot': nat, i: nat | slot' < slot + 1 && InPlane(l, slot', bit, i)
      ensures EntryMatched(now, l, bit, serial, slot', i)
    {
      if slot' < slot {
        assert EntryMatched(was, l, bit, serial, slot', i);
      } else if i >= Valid(l) {
        assert El(was, l, slot, bit, i) == 0;
      }
    }
  }

  ghost predicate BitClear(out: seq<int>, l: Layout, bit: nat, from: nat)
    requires |out| == Storage(l)
  {
    forall slot: nat, i: nat :: from <= slot && InPlane(l, slot, bit, i) ==> El(out, l, slot, bit, i) == 0
  }

  lemma OtherBitsKept(was: seq<int>, now: seq<int>, code: seq<seq<int>>, l: Layout, bit: nat, slot: nat, bit': nat)
    requires OnlyPlane(now, was, l, slot, bit, 0, Valid(l)) && bit != bit' && Buffers(code)
    ensures BitMatched(was, code, l, bit') ==> BitMatched(now, code, l, bit')
    ensures BitClear(was, l, bit', 0) ==> BitClear(now, l, bit', 0)
  {
    if BitMatched(was, code, l, bit') {
      var serial: seq<int> :| SerialFor(was, code, l, bit', serial);
      forall slot': nat, i: nat | slot' < l.slots && InPlane(l, slot', bit', i)
        ensures EntryMatched(now, l, bit', serial, slot', i)
      {
        assert EntryMatched(was, l, bit', serial, slot', i);
      }
      assert SerialFor(now, code, l, bit', serial);
    }
  }

  ghost predicate BitsUpTo(out: seq<int>, code: seq<seq<int>>, l: Layout, n: nat, current: nat)
    requires Buffers(code)
  {
    && |out| == Storage(l)
    && forall bit: nat :: bit < Q_M && bit != current ==>
         if bit < n then BitMatched(out, code, l, bit) else BitClear(out, l, bit, 0)
  }

  /** One whole plane. */
  method WritePlane(out: array<int>, code: seq<seq<int>>, l: Layout, bit: nat, eq: seq<nat>)
    requires Buffers(code) && out.Length == Storage(l) && bit < Q_M
    requires |eq| == C_NUM && forall cb: nat :: cb < C_NUM ==> eq[cb] == BlockSymbols(l, cb)
    requires BitsUpTo(out[..], code, l, bit, bit) && BitClear(out[..], l, bit, 0)
    modifies out
    ensures BitsUpTo(out[..], code, l, bit, bit) && BitMatched(out[..], code, l, bit)
  {
    var serial := SerialPlane(code, l, bit, eq);
    SymbolsCoverAll(l);
    for slot := 0 to l.slots
      invariant PlaneMatched(out[..], l, bit, serial, slot) && BitClear(out[..], l, bit, slot)
      invariant BitsUpTo(out[..], code, l, bit, bit)
    {
      ghost var was := out[..];
      WriteSlot(out, l, bit, slot, serial);
      ghost var now := out[..];
      forall bit': nat | bit' < Q_M && bit' != bit
        ensures if bit' < bit then BitMatched(now, code, l, bit') else BitClear(now, l, bit', 0)
      {
        OtherBitsKept(was, now, code, l, bit, slot, bit');
      }
    }
    assert SerialFor(out[..], code, l, bit, serial);
  }

  /** Rate matching of a whole codeword. */
  method MatchRate(code: seq<seq<int>>, l: Layout) returns (out: array<int>)
    requires Buffers(code)
    ensures fresh(out) && Matched(out[..], code, l)
  {
    NonNeg(l.slots, SlotSize(l));
    out := new int[Storage(l)](_ => 0);
    var eq := Segments(l);
    ghost var zeros := out[..];
    forall bit: nat, slot: nat, i: nat | InPlane(l, slot, bit, i)
      ensures El(zeros, l, slot, bit, i) == 0
    {
      PlaneFits(l, slot, bit);
    }
    for bit := 0 to Q_M
      invariant BitsUpTo(out[..], code, l, bit, Q_M)
    {
      WritePlane(out, code, l, bit, eq);
    }
  }

  // ---------- matching meets de-matching ----------

  /** Every symbol of a block is a symbol of the codeword. */
  lemma BlockInCodeword(l: Layout, cb: nat, j: nat)
    requires cb < C_NUM && j < BlockSymbols(l, cb)
    ensures SymbolsBefore(l, cb) + j < Symbols(l)
  {
    SymbolsBeforeGrows(l, cb + 1, C_NUM);
    SymbolsCoverAll(l);
  }

  /** The stored symbol x of a plane is element x of its serial form. */
  lemma SampleIsSerial(out: seq<int>, l: Layout, bit: nat, serial: seq<int>, x: nat)
    requires LayoutOk(l) && |out| == Storage(l) && |serial| == Symbols(l) && bit < Q_M && x < Symbols(l)
    requires PlaneMatched(out, l, bit, serial, l.slots)
    ensures Sample(out, l, bit, x) == serial[x]
  {
    LogicalElement(l, bit, x);
    assert EntryMatched(out, l, bit, serial, SlotOf(l, x), SymbolOf(l, x));
  }

  lemma SerialAtSymbol(serial: seq<int>, code: seq<seq<int>>, l: Layout, bit: nat, cb: nat, j: nat, x: nat)
    requires Buffers(code) && cb < C_NUM && SerialIs(serial, code, l, bit, C_NUM)
    requires j < BlockSymbols(l, cb) && x == SymbolsBefore(l, cb) + j
    ensures x < |serial| && serial[x] == Carried(code, l, cb, bit, j)
  {
    assert SerialAtBlock(serial, code, l, bit, cb);
  }

  lemma SerialCarries(out: seq<int>, code: seq<seq<int>>, l: Layout, serial: seq<int>, cb: nat, bit: nat, j: nat,
                      x: nat)
    requires LayoutOk(l) && Buffers(code) && |out| == Storage(l) && SerialFor(out, code, l, bit, serial)
    requires cb < C_NUM && bit < Q_M && j < BlockSymbols(l, cb) && x == SymbolsBefore(l, cb) + j && x < Symbols(l)
    ensures Sample(out, l, bit, x) == Carried(code, l, cb, bit, j)
  {
    SampleIsSerial(out, l, bit, serial, x);
    SerialAtSymbol(serial, code, l, bit, cb, j, x);
  }

  lemma BitCarries(out: seq<int>, code: seq<seq<int>>, l: Layout, cb: nat, bit: nat, j: nat, x: nat)
    requires LayoutOk(l) && Buffers(code) && |out| == Storage(l) && BitMatched(out, code, l, bit)
    requires cb < C_NUM && bit < Q_M && j < BlockSymbols(l, cb) && x == SymbolsBefore(l, cb) + j && x < Symbols(l)
    ensures Sample(out, l, bit, x) == Carried(code, l, cb, bit, j)
  {
    var serial: seq<int> :| SerialFor(out, code, l, bit, serial);
    SerialCarries(out, code, l, serial, cb, bit, j, x);
  }

  /** The n-th value a block's de-matcher receives belongs to buffer position n modulo the buffer. */
  lemma MatchedCarries(out: seq<int>, code: seq<seq<int>>, l: Layout, cb: nat, bit: nat, j: nat, x: nat)
    requires LayoutOk(l) && Matched(out, code, l) && cb < C_NUM && bit < Q_M && j < BlockSymbols(l, cb)
    requires x == SymbolsBefore(l, cb) + j
    ensures x < Symbols(l) && Sample(out, l, bit, x) == Carried(code, l, cb, bit, j)
  {
    BlockInCodeword(l, cb, j);
    BitCarries(out, code, l, cb, bit, j, x);
  }

  lemma CarriedIs(code: seq<seq<int>>, l: Layout, cb: nat, bit: nat, j: nat, eq: nat)
    requires Buffers(code) && cb < C_NUM && eq == BlockSymbols(l, cb)
    ensures 0 <= (bit * eq + j) % 25344 < |code[cb]| && Carried(code, l, cb, bit, j) == code[cb][(bit * eq + j) % 25344]
  {
    PlaneStartIsProduct(bit, eq);
  }

  /** The transmitted planes, bit by bit: symbol j of block cb's share of bit plane `bit` is coded bit bit * eq + j of
      the block, counted round its buffer of 25344; behind the valid symbols every plane is zero. */
  lemma PlaneBitIs(out: seq<int>, code: seq<seq<int>>, l: Layout, cb: nat, bit: nat, j: nat, eq: nat, x: nat)
    requires LayoutOk(l) && Matched(out, code, l) && cb < 143 && bit < 8 && eq == BlockSymbols(l, cb) && j < eq
    requires x == SymbolsBefore(l, cb) + j
    ensures |code| == 143 && |code[cb]| == 25344 && 0 <= (bit * eq + j) % 25344 && x < Symbols(l)
    ensures Sample(out, l, bit, x) == code[cb][(bit * eq + j) % 25344]
  {
    MatchedCarries(out, code, l, cb, bit, j, x);
    CarriedIs(code, l, cb, bit, j, eq);
  }

  lemma TailIsZero(out: seq<int>, code: seq<seq<int>>, l: Layout, slot: nat, bit: nat, i: nat)
    requires Matched(out, code, l) && slot < l.slots && bit < 8 && 19152 * l.layers <= i < 19200 * l.layers
    ensures InPlane(l, slot, bit, i) && El(out, l, slot, bit, i) == 0
  {
    assert BitMatched(out, code, l, bit);
    var serial: seq<int> :| SerialFor(out, code, l, bit, serial);
    assert EntryMatched(out, l, bit, serial, slot, i);
  }
}
