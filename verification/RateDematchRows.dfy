/** What a de-matched row holds, value by value, in the sizes of section 5.4.2 of TS 38.212. */
module RateDematchRows {
  import opened Arith
  import opened RateProfile
  import opened CircularBuffer
  import opened RateDematch
  import opened RateDematchKernel

  // ---------- one position ----------

  /** The punctured columns are zero; behind them every entry is the sum of its values, or the end of the public
      range that the sum exceeds. */
  lemma RowIsClipped(out: seq<int>, cb: nat, vals: seq<int>, k0: nat, k: nat)
    requires RowIs(out, cb, vals, k0) && k < 25344
    ensures 26112 * cb + 26112 <= |out| && (k < 768 ==> out[26112 * cb + k] == 0)
    ensures var sum, entry := Fold(vals, k0, k, |vals|), out[26112 * cb + 768 + k];
            && -5120 <= entry <= 5120 && (-5120 <= sum <= 5120 ==> entry == sum)
            && (sum > 5120 ==> entry == 5120) && (sum < -5120 ==> entry == -5120)
  {
    assert OutAt(out, cb, k) == Target(vals, k0, k);
    assert OutAt(out, cb, 768 + k) == Target(vals, k0, 768 + k);
  }

  /** The value that buffer position k receives in turn m, if that turn gets so far. */
  function TurnValue(vals: seq<int>, k: nat, m: nat): int {
    if k + 25344 * m < |vals| then vals[k + 25344 * m] else 0
  }

  ghost predicate Turns(vals: seq<int>, k: nat, n: nat, sum: int) {
    sum == (if k < n <= |vals| then vals[k] else 0) + (if k + 25344 < n <= |vals| then vals[k + 25344] else 0)
           + (if k + 50688 < n <= |vals| then vals[k + 50688] else 0)
           + (if k + 76032 < n <= |vals| then vals[k + 76032] else 0)
  }

  lemma TurnOf(k: nat, t: nat)
    requires k < 25344 && t < 101376
    ensures Position(0, t) == k <==> t == k || t == k + 25344 || t == k + 50688 || t == k + 76032
  {
  }

  lemma {:induction false} FoldTurns(vals: seq<int>, k: nat, n: nat)
    requires k < 25344 && n <= |vals| && n <= 101376
    ensures Turns(vals, k, n, Fold(vals, 0, k, n))
  {
    if n > 0 {
      FoldTurns(vals, k, n - 1);
      TurnOf(k, n - 1);
    }
  }

  /** Up to four turns: the sum at position k is that of the values k, k + 25344, k + 50688 and k + 76032. */
  lemma FoldIsFourTurns(vals: seq<int>, k: nat)
    requires k < 25344 && |vals| <= 101376
    ensures Fold(vals, 0, k, |vals|)
         == TurnValue(vals, k, 0) + TurnValue(vals, k, 1) + TurnValue(vals, k, 2) + TurnValue(vals, k, 3)
  {
    FoldTurns(vals, k, |vals|);
  }

  // ---------- one value ----------

  function Eightfold(v: int): int {
    if v > 640 then 5120 else if v < -640 then -5120 else 8 * v
  }

  /** A soft value is scaled by eight and clipped to the public range; where 16 bits wrap, the input behaves like the
      nearest one that is the same modulo 8192. */
  lemma ScaledIsEightfold(v: int)
    requires -32768 <= v <= 32767
    ensures Scaled(Oracle, v) == Scaled(Kernel(Saturating), v) == Eightfold(v)
    ensures Scaled(Kernel(Wrapping), v) == Eightfold((v + 4096) % 8192 - 4096)
  {
    SaturatingAgrees(v);
    var q, u := (v + 4096) / 8192, (v + 4096) % 8192;
    assert 8 * v + 0x8000 == q * 0x1_0000 + 8 * u;
    DivModUnique(8 * v + 0x8000, 0x1_0000, q, 8 * u);
  }

  /** Value bit * eq + j of a block is symbol j of its share of bit plane bit, read from slot-major storage. */
  lemma ReceivedIsSample(s: Scaler, cw: seq<int>, l: Layout, d: Descriptor, bit: nat, j: nat, eq: nat, x: nat)
    requires BlockFits(cw, l, d.offset, d.e / Q_M) && bit < 8 && eq == d.e / 8 && j < eq && x == d.offset + j
    ensures |Received(s, cw, l, d)| == 8 * eq && 0 <= bit * eq + j < 8 * eq && x < Symbols(l)
    ensures Received(s, cw, l, d)[bit * eq + j] == Scaled(s, Sample(cw, l, bit, x))
  {
    ReceivedAt(s, cw, l, d, bit, j);
    PlaneStartIsProduct(bit, eq);
  }

  /** Sample x of a bit plane lies in slot x / (19152 * layers), plane bit, at the remainder. */
  lemma SampleIsStored(cw: seq<int>, l: Layout, bit: nat, x: nat, valid: nat, stride: nat)
    requires LayoutOk(l) && |cw| == Storage(l) && bit < 8 && x < Symbols(l)
    requires valid == 19152 * l.layers && stride == 19200 * l.layers
    ensures 0 <= x / valid * (8 * stride) + bit * stride + x % valid < |cw|
    ensures Sample(cw, l, bit, x) == cw[x / valid * (8 * stride) + bit * stride + x % valid]
  {
    IndexInStorage(l, bit, x);
  }

  /** The whole output: one row of 26112 values for each of the 143 blocks, the sums of what its block received. */
  lemma OutputIsRows(s: Scaler, cw: seq<int>, l: Layout, d: seq<Descriptor>, out: seq<int>, cb: nat)
    requires BlocksReady(s, cw, l, d) && AllRows(s, cw, l, d, out) && cb < 143
    ensures |out| == 143 * 26112 && d[cb].e / 8 == BlockSymbols(l, cb) && d[cb].offset == SymbolsBefore(l, cb)
    ensures RowIs(out, cb, Received(s, cw, l, d[cb]), 0) && |Received(s, cw, l, d[cb])| <= 101376
  {
    BlockIs(s, cw, l, d, cb);
    BlockSymbolsBound(l, cb);
    assert RowDone(s, cw, l, d, out, cb);
  }

  // ---------- a position that is visited twice ----------

  /** Twenty-three slots of two layers give the first block 6160 symbols a plane, almost two turns. */
  lemma FirstBlockOfLongRun(l: Layout)
    requires l == Layout(2, 23)
    ensures BlockSymbols(l, 0) == 6160 && SymbolsBefore(l, 0) == 0
  {
  }

  ghost predicate AllSamplesAre(cw: seq<int>, l: Layout, v: int)
    requires LayoutOk(l) && |cw| == Storage(l)
  {
    forall bit: nat, x: nat :: bit < Q_M && x < Symbols(l) ==> Sample(cw, l, bit, x) == v
  }

  lemma {:induction false} SerialConstant(s: Scaler, cw: seq<int>, l: Layout, offset: nat, eq: nat, bits: nat, v: int)
    requires BlockFits(cw, l, offset, eq) && bits <= Q_M && AllSamplesAre(cw, l, v)
    ensures forall t :: 0 <= t < |Serial(s, cw, l, offset, eq, bits)| ==>
            Serial(s, cw, l, offset, eq, bits)[t] == Scaled(s, v)
  {
    if bits > 0 {
      SerialConstant(s, cw, l, offset, eq, bits - 1, v);
      var plane := PlaneValues(s, cw, l, offset, eq, bits - 1);
      forall j: nat | j < eq
        ensures plane[j] == Scaled(s, v)
      {
        var x := offset + j;
        assert Sample(cw, l, bits - 1, x) == v;
      }
    }
  }

  /** Two strong values at one position: their sum 10240 leaves the range, and the entry stays at its end. */
  lemma RepeatedPositionIsClipped(s: Scaler, cw: seq<int>, l: Layout, d: seq<Descriptor>, out: seq<int>)
    requires l == Layout(2, 23) && BlocksReady(s, cw, l, d) && AllSamplesAre(cw, l, 640)
    requires RowDone(s, cw, l, d, out, 0)
    ensures Fold(Received(s, cw, l, d[0]), 0, 0, |Received(s, cw, l, d[0])|) == 10240
    ensures 26112 <= |out| && out[768] == 5120
  {
    FirstBlockOfLongRun(l);
    BlockReceives(s, cw, l, d, 0);
    BlockIs(s, cw, l, d, 0);
    var vals := Received(s, cw, l, d[0]);
    SerialConstant(s, cw, l, 0, 6160, Q_M, 640);
    ScaledIsEightfold(640);
    FoldIsFourTurns(vals, 0);
    RowIsClipped(out, 0, vals, 0, 0);
  }
}
