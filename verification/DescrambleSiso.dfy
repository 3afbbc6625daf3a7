/**
 The single-layer descrambler. Its input rows are padded from 1596 to 1600 symbols; twelve copies of
 1664 elements, each overwriting the overrun of the one before, squeeze the padding out.
 */
module DescrambleSiso {
  import opened Arith
  import opened RateProfile
  import opened Planes
  import opened Scramble
  import opened RateDematch
  import opened Descramble

  const ROWS: nat := 12
  const ROW_USED: nat := 1596
  const ROW_STRIDE: nat := 1600
  const COPY: nat := 1664
  const STREAM: nat := 19200
  const USED: nat := 19152
  const INPUT_GUARD: nat := 64
  const OUTPUT_GUARD: nat := 80
  const CLEAR: nat := 64

  /** Where compacted element i comes from. */
  function SourceOf(i: nat): (p: nat)
    ensures i < USED ==> p < STREAM
  {
    i / ROW_USED * ROW_STRIDE + i % ROW_USED
  }

  ghost predicate Compacted(out: seq<int>, llr: seq<int>, n: nat) {
    && n <= |out|
    && forall i: nat :: i < n ==> FromSource(out, llr, i)
  }

  ghost predicate FromSource(out: seq<int>, llr: seq<int>, i: nat) {
    i < |out| && SourceOf(i) < |llr| && out[i] == llr[SourceOf(i)]
  }

  /** Copy one padded row, overrun included. */
  method CopyRow(out: array<int>, llr: array<int>, to: nat, from: nat)
    requires out != llr && to + COPY <= out.Length && from + COPY <= llr.Length
    modifies out
    ensures forall p :: to <= p < to + 1664 ==> out[p] == llr[p - to + from]
    ensures forall p :: 0 <= p < out.Length && !(to <= p < to + 1664) ==> out[p] == old(out[p])
  {
    forall e | 0 <= e < COPY {
      out[to + e] := llr[from + e];
    }
  }

  lemma RowCompacted(was: seq<int>, now: seq<int>, llr: seq<int>, ds: nat)
    requires ds < ROWS && |now| == |was| && Compacted(was, llr, ds * ROW_USED)
    requires ds * ROW_USED + COPY <= |now| && ds * ROW_STRIDE + COPY <= |llr|
    requires forall p :: ds * ROW_USED <= p < ds * ROW_USED + COPY ==>
             now[p] == llr[p - ds * ROW_USED + ds * ROW_STRIDE]
    requires forall p :: 0 <= p < ds * ROW_USED ==> now[p] == was[p]
    ensures Compacted(now, llr, (ds + 1) * ROW_USED)
  {
    forall i: nat | i < (ds + 1) * ROW_USED
      ensures FromSource(now, llr, i)
    {
      if i < ds * ROW_USED {
        assert FromSource(was, llr, i);
      } else {
        DivModUnique(i, ROW_USED, ds, i - ds * ROW_USED);
      }
    }
  }

  /** Compact all rows. Every read stays inside the input and its guard, every write inside the output
      and its guard. */
  method CompactRows(llr: array<int>, out: array<int>)
    requires out != llr && llr.Length == 19200 + 64 && out.Length == 19200 + 80
    modifies out
    ensures Compacted(out[..], llr[..], USED)
  {
    ghost var source := llr[..];
    for ds := 0 to ROWS
      invariant Compacted(out[..], source, ds * ROW_USED)
    {
      ghost var was := out[..];
      CopyRow(out, llr, ds * ROW_USED, ds * ROW_STRIDE);
      assert llr[..] == source;
      RowCompacted(was, out[..], source, ds);
    }
  }

  /** A stream after compaction, sign multiplication and clearing. */
  ghost predicate StreamEntry(out: seq<int>, llr: seq<int>, sign: seq<int>, mode: Multiply, i: nat)
    requires i < |out| && i < |sign| && |llr| >= STREAM && i < STREAM
  {
    out[i] == if i < USED then KernelProduct(mode, llr[SourceOf(i)], sign[i]) else 0
  }

  ghost predicate StreamDescrambled(out: seq<int>, llr: seq<int>, sign: seq<int>, mode: Multiply) {
    && |out| >= STREAM && |sign| == STREAM && |llr| >= STREAM
    && forall i: nat :: i < STREAM ==> StreamEntry(out, llr, sign, mode, i)
  }

  /** One stream: twelve overlapping copies, a 64-element clear, one multiplication. */
  method RunStream(mode: Multiply, llr: array<int>, sign: seq<int>, out: array<int>)
    requires out != llr && llr.Length == 19200 + 64 && out.Length == 19200 + 80 && |sign| == STREAM
    modifies out
    ensures StreamDescrambled(out[..], llr[..], sign, mode)
    ensures forall p :: 19200 <= p < 19216 ==> out[p] == 0
  {
    CompactRows(llr, out);
    ghost var source, compact := llr[..], out[..];
    forall e | 0 <= e < CLEAR {
      out[USED + e] := 0;
    }
    forall i | 0 <= i < STREAM {
      out[i] := KernelProduct(mode, out[i], sign[i]);
    }
    assert llr[..] == source;
    forall i: nat | i < STREAM
      ensures StreamEntry(out[..], source, sign, mode, i)
    {
      assert i < USED ==> FromSource(compact, source, i);
    }
  }

  /** All storage of the single-layer chain. */
  const SISO: Layout := Layout(1, 23)

  /** The slot count word is read as unsigned and capped. */
  function SlotCount(word: int): (n: nat)
    requires -0x8000_0000 <= word < 0x8000_0000
    ensures n == if word < 0 || word >= 24 then 23 else word
  {
    if 0 <= word <= MAX_SLOTS then word else MAX_SLOTS
  }

  ghost predicate Entry(out: seq<int>, llr: seq<int>, sign: seq<int>, mode: Multiply, slot: nat, bit: nat, i: nat)
    requires |out| == |llr| == |sign| == Storage(SISO) && InPlane(SISO, slot, bit, i)
  {
    El(out, SISO, slot, bit, i) ==
      if i < USED then
        KernelProduct(mode, El(llr, SISO, slot, NrBitToQamStream(bit), SourceOf(i)), El(sign, SISO, slot, bit, i))
      else 0
  }

  ghost predicate PlaneReady(out: seq<int>, llr: seq<int>, sign: seq<int>, mode: Multiply, slot: nat, bit: nat)
    requires |out| == |llr| == |sign| == Storage(SISO)
  {
    forall i: nat :: InPlane(SISO, slot, bit, i) ==> Entry(out, llr, sign, mode, slot, bit, i)
  }

  /** Load a stream, run it, store it. */
  method RunPlane(mode: Multiply, llrIn: seq<int>, sign: seq<int>, slot: nat, bit: nat, out: array<int>)
    requires |llrIn| == |sign| == out.Length == Storage(SISO) && slot < MAX_SLOTS && bit < Q_M
    modifies out
    ensures PlaneReady(out[..], llrIn, sign, mode, slot, bit)
    ensures OnlyPlane(out[..], old(out[..]), SISO, slot, bit, 0, STREAM)
  {
    ghost var was := out[..];
    var q := NrBitToQamStream(bit);
    PlaneFits(SISO, slot, bit);
    PlaneFits(SISO, slot, q);
    var from, to := PlaneBase(SISO, slot, q), PlaneBase(SISO, slot, bit);
    var llr, buf := new int[STREAM + INPUT_GUARD], new int[STREAM + OUTPUT_GUARD];
    forall e | 0 <= e < STREAM {
      llr[e] := llrIn[from + e];
    }
    var signs := sign[to..to + STREAM];
    RunStream(mode, llr, signs, buf);
    ghost var loaded, done := llr[..], buf[..];
    forall e | 0 <= e < STREAM {
      out[to + e] := buf[e];
    }
    WriteStaysInPlane(out[..], was, SISO, slot, bit, 0, STREAM);
    StoredPlane(out[..], llrIn, sign, mode, slot, bit, loaded, done);
  }

  lemma StoredPlane(now: seq<int>, llrIn: seq<int>, sign: seq<int>, mode: Multiply, slot: nat, bit: nat,
                    loaded: seq<int>, done: seq<int>)
    requires |now| == |llrIn| == |sign| == Storage(SISO) && slot < MAX_SLOTS && bit < Q_M
    requires |loaded| >= STREAM && PlaneBase(SISO, slot, NrBitToQamStream(bit)) + STREAM <= |llrIn|
    requires PlaneBase(SISO, slot, bit) + STREAM <= |now|
    requires forall e: nat :: e < STREAM ==> loaded[e] == llrIn[PlaneBase(SISO, slot, NrBitToQamStream(bit)) + e]
    requires StreamDescrambled(done, loaded, sign[PlaneBase(SISO, slot, bit)..PlaneBase(SISO, slot, bit) + STREAM],
                               mode)
    requires forall e: nat :: e < STREAM ==> done[e] == now[PlaneBase(SISO, slot, bit) + e]
    ensures PlaneReady(now, llrIn, sign, mode, slot, bit)
  {
    forall i: nat | InPlane(SISO, slot, bit, i)
      ensures Entry(now, llrIn, sign, mode, slot, bit, i)
    {
      assert StreamEntry(done, loaded, sign[PlaneBase(SISO, slot, bit)..PlaneBase(SISO, slot, bit) + STREAM], mode, i);
    }
  }

  /** Slots and streams done so far. */
  ghost predicate ReadyUpTo(out: seq<int>, llr: seq<int>, sign: seq<int>, mode: Multiply, done: set<(nat, nat)>) {
    && |out| == |llr| == |sign| == Storage(SISO)
    && forall slot: nat, bit: nat :: (slot, bit) in done ==> PlaneReady(out, llr, sign, mode, slot, bit)
  }

  lemma ReadyKept(was: seq<int>, now: seq<int>, llr: seq<int>, sign: seq<int>, mode: Multiply, slot: nat, bit: nat,
                  done: set<(nat, nat)>)
    requires ReadyUpTo(was, llr, sign, mode, done) && OnlyPlane(now, was, SISO, slot, bit, 0, STREAM)
    requires PlaneReady(now, llr, sign, mode, slot, bit)
    ensures ReadyUpTo(now, llr, sign, mode, done + {(slot, bit)})
  {
    var all := done + {(slot, bit)};
    forall slot': nat, bit': nat | (slot', bit') in all
      ensures PlaneReady(now, llr, sign, mode, slot', bit')
    {
      if slot' != slot || bit' != bit {
        assert PlaneReady(was, llr, sign, mode, slot', bit');
        forall i: nat | InPlane(SISO, slot', bit', i)
          ensures Entry(now, llr, sign, mode, slot', bit', i)
        {
          assert Entry(was, llr, sign, mode, slot', bit', i);
        }
      }
    }
  }

  /** Both of a core's streams are done in a slot. */
  ghost predicate Visited(done: set<(nat, nat)>, slot: nat, core: nat) {
    (slot, core) in done && (slot, core + 4) in done
  }

  lemma VisitedGrows(done: set<(nat, nat)>, more: set<(nat, nat)>, slots: nat, core: nat)
    requires done <= more && forall s: nat :: s < slots ==> Visited(done, s, core)
    ensures forall s: nat :: s < slots ==> Visited(more, s, core)
  {
    forall s: nat | s < slots
      ensures Visited(more, s, core)
    {
      assert Visited(done, s, core);
    }
  }

  /** One core: two streams of every slot. */
  method RunCore(mode: Multiply, llrIn: seq<int>, sign: seq<int>, slots: nat, core: nat, out: array<int>,
                 ghost done: set<(nat, nat)>) returns (ghost done': set<(nat, nat)>)
    requires |llrIn| == |sign| == out.Length == Storage(SISO) && slots <= MAX_SLOTS && core < 4
    requires ReadyUpTo(out[..], llrIn, sign, mode, done)
    modifies out
    ensures ReadyUpTo(out[..], llrIn, sign, mode, done') && done <= done'
    ensures forall slot: nat :: slot < slots ==> Visited(done', slot, core)
  {
    done' := done;
    for slot := 0 to slots
      invariant ReadyUpTo(out[..], llrIn, sign, mode, done') && done <= done'
      invariant forall s: nat :: s < slot ==> Visited(done', s, core)
    {
      ghost var was, before := out[..], done';
      RunPlane(mode, llrIn, sign, slot, core, out);
      ReadyKept(was, out[..], llrIn, sign, mode, slot, core, done');
      done' := done' + {(slot, core)};
      was := out[..];
      RunPlane(mode, llrIn, sign, slot, core + 4, out);
      ReadyKept(was, out[..], llrIn, sign, mode, slot, core + 4, done');
      done' := done' + {(slot, core + 4)};
      VisitedGrows(before, done', slot, core);
      assert Visited(done', slot, core);
    }
  }

  /** All cores: every stream of every requested slot is compacted, permuted and descrambled. */
  method DescrambleOnCores(mode: Multiply, llrIn: seq<int>, sign: seq<int>, word: int) returns (out: array<int>)
    requires |llrIn| == |sign| == Storage(SISO) && -0x8000_0000 <= word < 0x8000_0000
    ensures out.Length == Storage(SISO)
    ensures forall slot: nat, bit: nat :: slot < SlotCount(word) && bit < Q_M ==>
      PlaneReady(out[..], llrIn, sign, mode, slot, bit)
  {
    out := new int[|llrIn|];
    ghost var done: set<(nat, nat)> := {};
    for raw := 0 to 4
      invariant ReadyUpTo(out[..], llrIn, sign, mode, done)
      invariant forall r: nat, slot: nat :: r < raw && slot < SlotCount(word) ==> Visited(done, slot, CoreOf(r))
    {
      ghost var before := done;
      done := RunCore(mode, llrIn, sign, SlotCount(word), CoreOf(raw), out, done);
      forall r: nat | r < raw
        ensures forall slot: nat :: slot < SlotCount(word) ==> Visited(done, slot, CoreOf(r))
      {
        VisitedGrows(before, done, SlotCount(word), CoreOf(r));
      }
    }
    assert CoreOf(0) == 2 && CoreOf(1) == 3 && CoreOf(2) == 0 && CoreOf(3) == 1;
    forall slot: nat, bit: nat | slot < SlotCount(word) && bit < Q_M
      ensures PlaneReady(out[..], llrIn, sign, mode, slot, bit)
    {
      assert Visited(done, slot, CoreOf(0)) && Visited(done, slot, CoreOf(1));
      assert Visited(done, slot, CoreOf(2)) && Visited(done, slot, CoreOf(3));
    }
  }

  /** The single-layer kernel: symbol e of row d of NR bit 2 * h + p is read from symbol e of padded row d of physical
      stream h + 4 * p; what follows the twelve rows is zero. */
  lemma BitComesFromPaddedStream(out: seq<int>, llr: seq<int>, sign: seq<int>, mode: Multiply, slot: nat, h: nat,
                                 p: nat, d: nat, e: nat, i: nat)
    requires |out| == |llr| == |sign| == Storage(SISO) && slot < 23 && h < 4 && p < 2 && i < 19200
    requires PlaneReady(out, llr, sign, mode, slot, 2 * h + p) && e < 1596 && i == 1596 * d + e
    ensures InPlane(SISO, slot, 2 * h + p, i) && (d >= 12 ==> El(out, SISO, slot, 2 * h + p, i) == 0)
    ensures d < 12 ==>
      && InPlane(SISO, slot, h + 4 * p, 1600 * d + e)
      && (-32768 <= El(llr, SISO, slot, h + 4 * p, 1600 * d + e) <= 32767 ==>
            Signed(El(out, SISO, slot, 2 * h + p, i), El(llr, SISO, slot, h + 4 * p, 1600 * d + e),
                   El(sign, SISO, slot, 2 * h + p, i), mode))
  {
    assert Entry(out, llr, sign, mode, slot, 2 * h + p, i);
    if d < 12 {
      SourceIsRow(d, e);
    }
  }

  /** Symbol i of used row d comes from symbol i of padded row d. */
  lemma SourceIsRow(d: nat, i: nat)
    requires d < ROWS && i < ROW_USED
    ensures SourceOf(d * ROW_USED + i) == d * ROW_STRIDE + i
  {
    DivModUnique(d * ROW_USED + i, ROW_USED, d, i);
  }

  /** The same planes with the padding squeezed out, as the layer demapper hands them to the compact kernel. */
  ghost predicate CompactForm(compact: seq<int>, padded: seq<int>) {
    && |compact| == |padded| == Storage(SISO)
    && forall slot: nat, q: nat, i: nat :: InPlane(SISO, slot, q, i) && i < USED ==>
         El(compact, SISO, slot, q, i) == El(padded, SISO, slot, q, SourceOf(i))
  }

  /** The two descramblers agree: the single-layer one on padded rows is the compact one on compacted rows. */
  lemma SisoIsCompact(out: seq<int>, padded: seq<int>, compact: seq<int>, sign: seq<int>, mode: Multiply,
                      other: seq<int>, slot: nat, bit: nat, i: nat)
    requires |out| == |padded| == |sign| == Storage(SISO) && InPlane(SISO, slot, bit, i)
    requires PlaneReady(out, padded, sign, mode, slot, bit)
    requires CompactForm(compact, padded) && Descrambled(other, compact, sign, mode, SISO)
    ensures El(out, SISO, slot, bit, i) == El(other, SISO, slot, bit, i)
  {
    assert Entry(out, padded, sign, mode, slot, bit, i);
    assert PlaneDescrambled(other, compact, sign, mode, SISO, slot, bit);
    assert DescrambledEntry(other, compact, sign, mode, SISO, slot, bit, i);
    assert InPlane(SISO, slot, NrBitToQamStream(bit), i);
  }
}
