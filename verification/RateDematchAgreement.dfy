/** When the tiled rate de-matching kernel and the scalar oracle produce the same output. */
module RateDematchAgreement {
  import opened Arith
  import opened PuschTypes
  import opened RateProfile
  import opened CircularBuffer
  import opened RateDematch
  import opened RateDematchKernel

  // ---------- sufficient for every layout ----------

  /** A sample on which the kernel's 16-bit scaling is the oracle's. */
  ghost predicate Harmless(mode: Multiply, cw: seq<int>, l: Layout, bit: nat, x: nat)
    requires LayoutOk(l) && |cw| == Storage(l) && bit < Q_M && x < Symbols(l)
  {
    mode == Wrapping ==> WrapHarmless(Sample(cw, l, bit, x))
  }

  /** Valid symbols are 16-bit; storage tails are not looked at. */
  ghost predicate SixteenBit(cw: seq<int>, l: Layout)
    requires LayoutOk(l) && |cw| == Storage(l)
  {
    forall bit: nat, x: nat :: bit < Q_M && x < Symbols(l) ==> Int16(Sample(cw, l, bit, x))
  }

  ghost predicate AllHarmless(mode: Multiply, cw: seq<int>, l: Layout)
    requires LayoutOk(l) && |cw| == Storage(l)
  {
    forall bit: nat, x: nat :: bit < Q_M && x < Symbols(l) ==> Harmless(mode, cw, l, bit, x)
  }

  lemma ScaledAlikeIff(mode: Multiply, v: int)
    requires Int16(v)
    ensures Scaled(Kernel(mode), v) == Scaled(Oracle, v) <==> (mode == Wrapping ==> WrapHarmless(v))
  {
    if mode == Wrapping {
      WrappingAgreesIff(v);
    } else {
      SaturatingAgrees(v);
    }
  }

  lemma PlanesAlike(mode: Multiply, cw: seq<int>, l: Layout, offset: nat, eq: nat, bit: nat)
    requires BlockFits(cw, l, offset, eq) && bit < Q_M && SixteenBit(cw, l) && AllHarmless(mode, cw, l)
    ensures PlaneValues(Kernel(mode), cw, l, offset, eq, bit) == PlaneValues(Oracle, cw, l, offset, eq, bit)
  {
    var a, b := PlaneValues(Kernel(mode), cw, l, offset, eq, bit), PlaneValues(Oracle, cw, l, offset, eq, bit);
    forall j: nat | j < eq
      ensures a[j] == b[j]
    {
      var x := offset + j;
      assert Int16(Sample(cw, l, bit, x)) && Harmless(mode, cw, l, bit, x);
      ScaledAlikeIff(mode, Sample(cw, l, bit, x));
    }
  }

  lemma {:induction false} SerialsAlike(mode: Multiply, cw: seq<int>, l: Layout, offset: nat, eq: nat, bits: nat)
    requires BlockFits(cw, l, offset, eq) && bits <= Q_M && SixteenBit(cw, l) && AllHarmless(mode, cw, l)
    ensures Serial(Kernel(mode), cw, l, offset, eq, bits) == Serial(Oracle, cw, l, offset, eq, bits)
  {
    if bits > 0 {
      SerialsAlike(mode, cw, l, offset, eq, bits - 1);
      PlanesAlike(mode, cw, l, offset, eq, bits - 1);
    }
  }

  lemma RowUnique(a: seq<int>, b: seq<int>, cb: nat, vals: seq<int>, k0: nat, k: nat)
    requires RowIs(a, cb, vals, k0) && RowIs(b, cb, vals, k0) && k < LDPC_N
    ensures a[cb * LDPC_N + k] == b[cb * LDPC_N + k]
  {
    assert OutAt(a, cb, k) == Target(vals, k0, k) == OutAt(b, cb, k);
  }

  /** For every layout: where all valid samples scale alike, the arrays are equal. */
  lemma KernelIsOracle(mode: Multiply, cw: seq<int>, l: Layout, d: seq<Descriptor>, kernel: seq<int>, oracle: seq<int>)
    requires BlocksReady(Kernel(mode), cw, l, d) && BlocksReady(Oracle, cw, l, d)
    requires SixteenBit(cw, l) && AllHarmless(mode, cw, l)
    requires AllRows(Kernel(mode), cw, l, d, kernel) && AllRows(Oracle, cw, l, d, oracle)
    ensures kernel == oracle
  {
    forall i | 0 <= i < C_NUM * LDPC_N
      ensures kernel[i] == oracle[i]
    {
      var cb, k := i / LDPC_N, i % LDPC_N;
      assert RowDone(Kernel(mode), cw, l, d, kernel, cb) && RowDone(Oracle, cw, l, d, oracle, cb);
      SerialsAlike(mode, cw, l, d[cb].offset, d[cb].e / Q_M, Q_M);
      RowUnique(kernel, oracle, cb, Received(Oracle, cw, l, d[cb]), d[cb].k0, k);
    }
  }

  // ---------- exact where no position is visited twice ----------

  /** Every block fits its circular buffer once: all the layouts the chain runs. */
  ghost predicate OneTurn(l: Layout) {
    forall cb: nat :: cb < C_NUM ==> Q_M * BlockSymbols(l, cb) <= N_CB_BUF
  }

  lemma UnitsAtMost(slots: nat, cb: nat)
    requires 1 <= slots <= MAX_SLOTS && cb < C_NUM
    ensures Units(slots, cb) <= 3081
    ensures slots <= 11 ==> Units(slots, cb) <= 1584
    ensures slots <= 7 ==> Units(slots, cb) <= 1056
    ensures slots <= 5 ==> Units(slots, cb) <= 792
  {
  }

  lemma LastUnits(slots: nat)
    requires 1 <= slots <= MAX_SLOTS
    ensures slots > 11 ==> Units(slots, C_NUM - 1) > 1584
    ensures slots > 7 ==> Units(slots, C_NUM - 1) > 1056
    ensures slots > 5 ==> Units(slots, C_NUM - 1) > 792
  {
  }

  lemma SmallLayoutsAreOneTurn(l: Layout)
    requires LayoutOk(l) && l.layers * l.slots <= 23
    ensures OneTurn(l)
  {
    forall cb: nat | cb < C_NUM
      ensures Q_M * BlockSymbols(l, cb) <= N_CB_BUF
    {
      UnitsAtMost(l.slots, cb);
      BlockBound(l.layers, l.slots, Units(l.slots, cb));
    }
  }

  /** The last block takes the most units. */
  lemma LargeLayoutsAreNot(l: Layout)
    requires LayoutOk(l) && l.layers * l.slots > 23
    ensures Q_M * BlockSymbols(l, C_NUM - 1) > N_CB_BUF
  {
    LastUnits(l.slots);
    LastBound(l.layers, l.slots, Units(l.slots, C_NUM - 1));
  }

  /** One turn suffices exactly when slots times layers is at most 23, as in the loopback chain's batches. */
  lemma OneTurnIff(l: Layout)
    requires LayoutOk(l)
    ensures OneTurn(l) <==> l.layers * l.slots <= 23
  {
    if l.layers * l.slots <= 23 {
      SmallLayoutsAreOneTurn(l);
    } else {
      LargeLayoutsAreNot(l);
    }
  }

  lemma BlockBound(layers: nat, slots: nat, u: nat)
    requires 1 <= layers <= MAX_LAYERS && layers * slots <= 23
    requires u <= 3081 && (slots <= 11 ==> u <= 1584) && (slots <= 7 ==> u <= 1056) && (slots <= 5 ==> u <= 792)
    ensures Q_M * (layers * u) <= N_CB_BUF
  {
    match layers
    case 1 =>
    case 2 =>
    case 3 =>
    case 4 =>
  }

  lemma LastBound(layers: nat, slots: nat, u: nat)
    requires 1 <= layers <= MAX_LAYERS && 1 <= slots <= MAX_SLOTS
    requires (slots > 11 ==> u > 1584) && (slots > 7 ==> u > 1056) && (slots > 5 ==> u > 792)
    ensures layers * slots > 23 ==> Q_M * (layers * u) > N_CB_BUF
  {
    match layers
    case 1 =>
    case 2 =>
    case 3 =>
    case 4 =>
  }

  lemma {:induction false} FoldOnce(vals: seq<int>, k: nat, n: nat)
    requires n <= |vals| && n <= N_CB_BUF && k < N_CB_BUF
    ensures Fold(vals, 0, k, n) == if k < n then vals[k] else 0
  {
    if n > 0 {
      FoldOnce(vals, k, n - 1);
    }
  }

  lemma RowHoldsValue(out: seq<int>, cb: nat, vals: seq<int>, k: nat)
    requires RowIs(out, cb, vals, 0) && k < |vals| <= N_CB_BUF && Clip(vals[k]) == vals[k]
    ensures OutAt(out, cb, N_2Z + k) == vals[k]
  {
    FoldOnce(vals, k, |vals|);
    assert OutAt(out, cb, N_2Z + k) == Target(vals, 0, N_2Z + k);
  }

  lemma BlockHoldsValue(s: Scaler, cw: seq<int>, l: Layout, d: seq<Descriptor>, out: seq<int>, cb: nat,
                        vals: seq<int>, k: nat)
    requires BlocksReady(s, cw, l, d) && AllRows(s, cw, l, d, out) && cb < C_NUM && d[cb].k0 == 0
    requires vals == Received(s, cw, l, d[cb]) && k < |vals| <= N_CB_BUF && Clip(vals[k]) == vals[k]
    ensures OutAt(out, cb, N_2Z + k) == vals[k]
  {
    assert RowDone(s, cw, l, d, out, cb);
    RowHoldsValue(out, cb, vals, k);
  }

  lemma OutputShows(s: Scaler, cw: seq<int>, l: Layout, d: seq<Descriptor>, out: seq<int>, cb: nat, eq: nat,
                    offset: nat, bit: nat, j: nat)
    requires BlocksReady(s, cw, l, d) && AllRows(s, cw, l, d, out) && cb < C_NUM && d[cb].k0 == 0
    requires eq == d[cb].e / Q_M && offset == d[cb].offset && BlockFits(cw, l, offset, eq) && Q_M * eq <= N_CB_BUF
    requires bit < Q_M && j < eq
    ensures PlaneStart(bit, eq) + j < N_CB_BUF
    ensures OutAt(out, cb, N_2Z + PlaneStart(bit, eq) + j) == Scaled(s, Sample(cw, l, bit, offset + j))
  {
    var vals := Received(s, cw, l, d[cb]);
    ReceivedAt(s, cw, l, d[cb], bit, j);
    BlockHoldsValue(s, cw, l, d, out, cb, vals, PlaneStart(bit, eq) + j);
  }

  /** In a one-turn block the output holds each scaled sample by itself. */
  lemma OutputIsSample(s: Scaler, cw: seq<int>, l: Layout, d: seq<Descriptor>, out: seq<int>, cb: nat, bit: nat, j: nat,
                       eq: nat, x: nat)
    requires BlocksReady(s, cw, l, d) && AllRows(s, cw, l, d, out) && OneTurn(l)
    requires cb < C_NUM && bit < Q_M && j < eq == BlockSymbols(l, cb) && x == SymbolsBefore(l, cb) + j
    ensures PlaneStart(bit, eq) + j < N_CB_BUF && x < Symbols(l)
    ensures OutAt(out, cb, N_2Z + PlaneStart(bit, eq) + j) == Scaled(s, Sample(cw, l, bit, x))
  {
    BlockIs(s, cw, l, d, cb);
    OutputShows(s, cw, l, d, out, cb, eq, x - j, bit, j);
  }

  /** The block a symbol belongs to. */
  lemma {:induction false} OwnerOf(l: Layout, x: nat, n: nat) returns (cb: nat, j: nat)
    requires n <= C_NUM && x < SymbolsBefore(l, n)
    ensures cb < n && j < BlockSymbols(l, cb) && x == SymbolsBefore(l, cb) + j
  {
    if x >= SymbolsBefore(l, n - 1) {
      cb, j := n - 1, x - SymbolsBefore(l, n - 1);
    } else {
      cb, j := OwnerOf(l, x, n - 1);
    }
  }

  /**
   In one-turn layouts the kernel produces the oracle's array exactly when every valid sample scales
   alike: for a wrapping multiplication, when every one is harmless.
   */
  lemma KernelIsOracleIff(mode: Multiply, cw: seq<int>, l: Layout, d: seq<Descriptor>, kernel: seq<int>,
                          oracle: seq<int>)
    requires BlocksReady(Kernel(mode), cw, l, d) && BlocksReady(Oracle, cw, l, d) && SixteenBit(cw, l) && OneTurn(l)
    requires AllRows(Kernel(mode), cw, l, d, kernel) && AllRows(Oracle, cw, l, d, oracle)
    ensures kernel == oracle <==> AllHarmless(mode, cw, l)
  {
    if AllHarmless(mode, cw, l) {
      KernelIsOracle(mode, cw, l, d, kernel, oracle);
    }
    if kernel == oracle {
      forall bit: nat, x: nat | bit < Q_M && x < Symbols(l)
        ensures Harmless(mode, cw, l, bit, x)
      {
        SymbolsCoverAll(l);
        var cb, j := OwnerOf(l, x, C_NUM);
        OutputIsSample(Kernel(mode), cw, l, d, kernel, cb, bit, j, BlockSymbols(l, cb), x);
        OutputIsSample(Oracle, cw, l, d, oracle, cb, bit, j, BlockSymbols(l, cb), x);
        assert Int16(Sample(cw, l, bit, x));
        ScaledAlikeIff(mode, Sample(cw, l, bit, x));
      }
    }
  }

  /** The kernel at 4096: in a one-turn layout a wrapping kernel outputs the strongest value of the wrong sign. */
  lemma KernelFlipsSign(cw: seq<int>, l: Layout, d: seq<Descriptor>, kernel: seq<int>, oracle: seq<int>, cb: nat,
                        bit: nat, j: nat, eq: nat, x: nat)
    requires BlocksReady(Kernel(Wrapping), cw, l, d) && BlocksReady(Oracle, cw, l, d) && OneTurn(l)
    requires AllRows(Kernel(Wrapping), cw, l, d, kernel) && AllRows(Oracle, cw, l, d, oracle)
    requires cb < C_NUM && bit < Q_M && j < eq == BlockSymbols(l, cb) && x == SymbolsBefore(l, cb) + j < Symbols(l)
    requires Sample(cw, l, bit, x) == 4096
    ensures PlaneStart(bit, eq) + j < N_CB_BUF
    ensures OutAt(kernel, cb, N_2Z + PlaneStart(bit, eq) + j) == -LLR_CLIP
    ensures OutAt(oracle, cb, N_2Z + PlaneStart(bit, eq) + j) == LLR_CLIP
  {
    OutputIsSample(Kernel(Wrapping), cw, l, d, kernel, cb, bit, j, eq, x);
    OutputIsSample(Oracle, cw, l, d, oracle, cb, bit, j, eq, x);
    WrappingFlipsSign();
  }
}
