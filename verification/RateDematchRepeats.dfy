/**
 Layouts in which some block goes round its circular buffer more than once. There a wrapping kernel can
 overflow and still produce the oracle's output, because two wrapped values at one position cancel.
 */
module RateDematchRepeats {
  import opened Arith
  import opened RateProfile
  import opened Planes
  import opened CircularBuffer
  import opened RateDematch
  import opened RateDematchKernel
  import opened RateDematchAgreement

  // ---------- two values one turn apart ----------

  /** Value t of a block is symbol j of plane bit. */
  lemma {:induction false} SerialIndex(eq: nat, bits: nat, t: nat) returns (bit: nat, j: nat)
    requires t < PlaneStart(bits, eq)
    ensures bit < bits && j < eq && t == PlaneStart(bit, eq) + j
  {
    if t >= PlaneStart(bits - 1, eq) {
      bit, j := bits - 1, t - PlaneStart(bits - 1, eq);
    } else {
      bit, j := SerialIndex(eq, bits - 1, t);
    }
  }

  lemma PlaneStartUnique(eq: nat, bit: nat, j: nat, bit': nat, j': nat)
    requires j < eq && j' < eq && PlaneStart(bit, eq) + j == PlaneStart(bit', eq) + j'
    ensures bit == bit' && j == j'
  {
    PlaneStartIsProduct(bit, eq);
    PlaneStartIsProduct(bit', eq);
    if bit < bit' {
      BlockOrder(bit, bit', eq);
    } else if bit' < bit {
      BlockOrder(bit', bit, eq);
    }
  }

  /** Where the two strong symbols of the codeword are: both in one block, the second one turn after the first. */
  datatype Pair = Pair(offset: nat, eq: nat, bit: nat, j: nat)

  ghost predicate PairOk(p: Pair) {
    p.bit < Q_M && p.j < p.eq && PlaneStart(p.bit, p.eq) + p.j == N_CB_BUF
  }

  /** 4096 and -4097 are the two values next to the range on which wrapping does no harm. */
  function Marked(p: Pair, bit: nat, x: nat): int {
    if bit == 0 && x == p.offset then 4096 else if bit == p.bit && x == p.offset + p.j then -4097 else 0
  }

  ghost predicate Carries(cw: seq<int>, l: Layout, p: Pair)
    requires LayoutOk(l) && |cw| == Storage(l)
  {
    forall bit: nat, x: nat :: bit < Q_M && x < Symbols(l) ==> Sample(cw, l, bit, x) == Marked(p, bit, x)
  }

  /** Oracle values a and kernel values b differ by a wrapped value at 0 and by the opposite one a turn later. */
  ghost predicate Opposed(a: seq<int>, b: seq<int>, own: bool) {
    |a| == |b| && forall t: nat :: t < |a| ==> OpposedAt(a, b, own, t)
  }

  ghost predicate OpposedAt(a: seq<int>, b: seq<int>, own: bool, t: nat)
    requires t < |a| == |b|
  {
    a[t] - b[t] == if own && t == 0 then 2 * LLR_CLIP else if own && t == N_CB_BUF then -2 * LLR_CLIP else 0
  }

  lemma MarkedScaled(p: Pair, bit: nat, x: nat)
    requires PairOk(p)
    ensures Scaled(Oracle, Marked(p, bit, x)) - Scaled(Kernel(Wrapping), Marked(p, bit, x))
         == if bit == 0 && x == p.offset then 2 * LLR_CLIP
            else if bit == p.bit && x == p.offset + p.j then -2 * LLR_CLIP else 0
  {
  }

  /** One value of the pair's own block. */
  lemma OwnValue(p: Pair, a: seq<int>, b: seq<int>, t: nat, bit: nat, j: nat)
    requires PairOk(p) && t < |a| == |b| && j < p.eq && t == PlaneStart(bit, p.eq) + j
    requires a[t] == Scaled(Oracle, Marked(p, bit, p.offset + j))
    requires b[t] == Scaled(Kernel(Wrapping), Marked(p, bit, p.offset + j))
    ensures OpposedAt(a, b, true, t)
  {
    MarkedScaled(p, bit, p.offset + j);
    if t == 0 {
      PlaneStartUnique(p.eq, bit, j, 0, 0);
    } else if t == N_CB_BUF {
      PlaneStartUnique(p.eq, bit, j, p.bit, p.j);
    }
  }

  /** The block at offset, with eq symbols a plane, is the pair's own or does not meet it. */
  ghost predicate Apart(p: Pair, offset: nat, eq: nat) {
    (offset == p.offset && eq == p.eq) || offset + eq <= p.offset || p.offset + p.eq <= offset
  }

  lemma BlockOpposed(cw: seq<int>, l: Layout, p: Pair, offset: nat, eq: nat, bits: nat)
    requires PairOk(p) && BlockFits(cw, l, offset, eq) && bits <= Q_M && Carries(cw, l, p) && Apart(p, offset, eq)
    ensures Opposed(Serial(Oracle, cw, l, offset, eq, bits), Serial(Kernel(Wrapping), cw, l, offset, eq, bits),
                    offset == p.offset && eq == p.eq)
  {
    var a, b := Serial(Oracle, cw, l, offset, eq, bits), Serial(Kernel(Wrapping), cw, l, offset, eq, bits);
    var own := offset == p.offset && eq == p.eq;
    forall t: nat | t < |a|
      ensures OpposedAt(a, b, own, t)
    {
      var bit, j := SerialIndex(eq, bits, t);
      SerialAt(Oracle, cw, l, offset, eq, bits, bit, j);
      SerialAt(Kernel(Wrapping), cw, l, offset, eq, bits, bit, j);
      var x := offset + j;
      assert Sample(cw, l, bit, x) == Marked(p, bit, x);
      if own {
        OwnValue(p, a, b, t, bit, j);
      } else {
        MarkedScaled(p, bit, x);
      }
    }
  }

  // ---------- they cancel ----------

  lemma {:induction false} OpposedFold(a: seq<int>, b: seq<int>, own: bool, k: nat, n: nat)
    requires Opposed(a, b, own) && n <= |a| && k < N_CB_BUF
    ensures Fold(a, 0, k, n) - Fold(b, 0, k, n) == if own && k == 0 && 0 < n <= N_CB_BUF then 2 * LLR_CLIP else 0
  {
    if n > 0 {
      var t := n - 1;
      OpposedFold(a, b, own, k, t);
      assert OpposedAt(a, b, own, t);
    }
  }

  lemma OpposedTarget(a: seq<int>, b: seq<int>, own: bool, k: nat)
    requires Opposed(a, b, own) && k < LDPC_N && (own ==> |a| > N_CB_BUF)
    ensures Target(a, 0, k) == Target(b, 0, k)
  {
    if k >= N_2Z {
      OpposedFold(a, b, own, k - N_2Z, |a|);
    }
  }

  // ---------- a whole codeword ----------

  /** The pair sits in the last block. */
  ghost predicate InLastBlock(l: Layout, p: Pair) {
    PairOk(p) && p.offset == SymbolsBefore(l, C_NUM - 1) && p.eq == BlockSymbols(l, C_NUM - 1)
  }

  lemma OtherBlocksApart(l: Layout, p: Pair, cb: nat)
    requires InLastBlock(l, p) && cb < C_NUM
    ensures Apart(p, SymbolsBefore(l, cb), BlockSymbols(l, cb))
  {
    if cb < C_NUM - 1 {
      EarlierBlock(l, cb, C_NUM - 1);
    }
  }

  lemma EarlierBlock(l: Layout, cb: nat, later: nat)
    requires cb < later
    ensures SymbolsBefore(l, cb) + BlockSymbols(l, cb) <= SymbolsBefore(l, later)
  {
    SymbolsBeforeGrows(l, cb + 1, later);
  }

  lemma SameTarget(cw: seq<int>, l: Layout, d: seq<Descriptor>, p: Pair, cb: nat, offset: nat, eq: nat, k: nat)
    requires BlocksReady(Kernel(Wrapping), cw, l, d) && BlocksReady(Oracle, cw, l, d) && cb < C_NUM && d[cb].k0 == 0
    requires PairOk(p) && Carries(cw, l, p) && Apart(p, offset, eq) && k < LDPC_N
    requires offset == d[cb].offset && eq == d[cb].e / Q_M && BlockFits(cw, l, offset, eq)
    ensures Target(Received(Oracle, cw, l, d[cb]), 0, k) == Target(Received(Kernel(Wrapping), cw, l, d[cb]), 0, k)
  {
    BlockOpposed(cw, l, p, offset, eq, Q_M);
    var own := offset == p.offset && eq == p.eq;
    if own {
      PlaneStartIsProduct(p.bit, eq);
      BlockOrder(p.bit, Q_M, eq);
    }
    OpposedTarget(Received(Oracle, cw, l, d[cb]), Received(Kernel(Wrapping), cw, l, d[cb]), own, k);
  }

  /** Every output value of the two is the same. */
  lemma TargetsEqual(cw: seq<int>, l: Layout, d: seq<Descriptor>, p: Pair, cb: nat, k: nat)
    requires BlocksReady(Kernel(Wrapping), cw, l, d) && BlocksReady(Oracle, cw, l, d) && cb < C_NUM && k < LDPC_N
    requires InLastBlock(l, p) && Carries(cw, l, p)
    ensures Target(Received(Oracle, cw, l, d[cb]), d[cb].k0, k)
         == Target(Received(Kernel(Wrapping), cw, l, d[cb]), d[cb].k0, k)
  {
    BlockIs(Oracle, cw, l, d, cb);
    OtherBlocksApart(l, p, cb);
    SameTarget(cw, l, d, p, cb, SymbolsBefore(l, cb), BlockSymbols(l, cb), k);
  }

  /** The output that meets the scaler's specification. */
  lemma OutputExists(s: Scaler, cw: seq<int>, l: Layout, d: seq<Descriptor>) returns (out: seq<int>)
    requires BlocksReady(s, cw, l, d)
    ensures AllRows(s, cw, l, d, out)
  {
    out := seq(C_NUM * LDPC_N, i requires 0 <= i < C_NUM * LDPC_N =>
      Target(Received(s, cw, l, d[i / LDPC_N]), d[i / LDPC_N].k0, i % LDPC_N));
    forall cb: nat | cb < C_NUM
      ensures RowDone(s, cw, l, d, out, cb)
    {
      forall k: nat | k < LDPC_N
        ensures OutAt(out, cb, k) == Target(Received(s, cw, l, d[cb]), d[cb].k0, k)
      {
        DivModUnique(cb * LDPC_N + k, LDPC_N, cb, k);
      }
    }
  }

  lemma RowsOfBoth(cw: seq<int>, l: Layout, d: seq<Descriptor>, p: Pair, out: seq<int>)
    requires BlocksReady(Kernel(Wrapping), cw, l, d) && BlocksReady(Oracle, cw, l, d)
    requires InLastBlock(l, p) && Carries(cw, l, p) && AllRows(Oracle, cw, l, d, out)
    ensures AllRows(Kernel(Wrapping), cw, l, d, out)
  {
    forall cb: nat | cb < C_NUM
      ensures RowDone(Kernel(Wrapping), cw, l, d, out, cb)
    {
      assert RowDone(Oracle, cw, l, d, out, cb);
      forall k: nat | k < LDPC_N
        ensures OutAt(out, cb, k) == Target(Received(Kernel(Wrapping), cw, l, d[cb]), d[cb].k0, k)
      {
        TargetsEqual(cw, l, d, p, cb, k);
      }
    }
  }

  // ---------- such a codeword exists ----------

  lemma IndexInjective(l: Layout, bit: nat, x: nat, bit': nat, x': nat)
    requires LayoutOk(l) && bit < Q_M && bit' < Q_M && x < Symbols(l) && x' < Symbols(l)
    requires InputIndex(l, bit, x) == InputIndex(l, bit', x')
    ensures bit == bit' && x == x'
  {
    LogicalElement(l, bit, x);
    LogicalElement(l, bit', x');
    if SlotOf(l, x) != SlotOf(l, x') || bit != bit' {
      PlanesApart(l, SlotOf(l, x), bit, SlotOf(l, x'), bit');
    }
  }

  lemma CodewordExists(l: Layout, p: Pair) returns (cw: seq<int>)
    requires LayoutOk(l) && PairOk(p) && p.offset + p.eq <= Symbols(l)
    ensures |cw| == Storage(l) && Carries(cw, l, p)
  {
    var first, second := InputIndex(l, 0, p.offset), InputIndex(l, p.bit, p.offset + p.j);
    IndexInStorage(l, 0, p.offset);
    IndexInStorage(l, p.bit, p.offset + p.j);
    cw := seq(Storage(l), _ => 0)[second := -4097][first := 4096];
    forall bit: nat, x: nat | bit < Q_M && x < Symbols(l)
      ensures Sample(cw, l, bit, x) == Marked(p, bit, x)
    {
      IndexInStorage(l, bit, x);
      if InputIndex(l, bit, x) == first {
        IndexInjective(l, bit, x, 0, p.offset);
      } else if InputIndex(l, bit, x) == second {
        IndexInjective(l, bit, x, p.bit, p.offset + p.j);
      }
    }
  }

  lemma LastPairExists(l: Layout) returns (p: Pair)
    requires LayoutOk(l) && !OneTurn(l)
    ensures InLastBlock(l, p) && p.offset + p.eq == Symbols(l)
  {
    OneTurnIff(l);
    LargeLayoutsAreNot(l);
    var eq := BlockSymbols(l, C_NUM - 1);
    PlaneStartIsProduct(Q_M, eq);
    var bit, j := SerialIndex(eq, Q_M, N_CB_BUF);
    p := Pair(SymbolsBefore(l, C_NUM - 1), eq, bit, j);
    SymbolsCoverAll(l);
  }

  lemma CarriedIsHarmful(cw: seq<int>, l: Layout, p: Pair)
    requires LayoutOk(l) && |cw| == Storage(l) && Carries(cw, l, p) && p.offset < Symbols(l)
    ensures SixteenBit(cw, l) && !AllHarmless(Wrapping, cw, l)
  {
    var first: nat := 0;
    assert Sample(cw, l, first, p.offset) == 4096;
    assert !Harmless(Wrapping, cw, l, first, p.offset);
    forall bit: nat, x: nat | bit < Q_M && x < Symbols(l)
      ensures Int16(Sample(cw, l, bit, x))
    {
      assert Sample(cw, l, bit, x) == Marked(p, bit, x);
    }
  }

  // ---------- when agreement decides harmlessness ----------

  /** A codeword, and what the wrapping kernel and the oracle make of it. */
  ghost predicate Instance(l: Layout, d: seq<Descriptor>, cw: seq<int>, kernel: seq<int>, oracle: seq<int>) {
    && BlocksReady(Kernel(Wrapping), cw, l, d) && BlocksReady(Oracle, cw, l, d) && SixteenBit(cw, l)
    && AllRows(Kernel(Wrapping), cw, l, d, kernel) && AllRows(Oracle, cw, l, d, oracle)
  }

  /** Equal outputs mean that no valid symbol was wrapped. */
  ghost predicate AgreementDecides(l: Layout, d: seq<Descriptor>)
    requires LayoutOk(l)
  {
    forall cw: seq<int>, kernel: seq<int>, oracle: seq<int> ::
      Instance(l, d, cw, kernel, oracle) && kernel == oracle ==> AllHarmless(Wrapping, cw, l)
  }

  /** In every layout with more than one turn, a codeword with a wrapped symbol has equal outputs. */
  lemma RepetitionHides(l: Layout, d: seq<Descriptor>) returns (cw: seq<int>, out: seq<int>)
    requires LayoutOk(l) && DescribesUpTo(l, d, C_NUM) && !OneTurn(l)
    ensures Instance(l, d, cw, out, out) && !AllHarmless(Wrapping, cw, l)
  {
    var p := LastPairExists(l);
    cw := CodewordExists(l, p);
    ProfileBlocksReady(Oracle, cw, l, d);
    ProfileBlocksReady(Kernel(Wrapping), cw, l, d);
    out := OutputExists(Oracle, cw, l, d);
    RowsOfBoth(cw, l, d, p, out);
    CarriedIsHarmful(cw, l, p);
  }

  /** Agreement of the outputs decides harmlessness exactly in the layouts whose slots times layers is at most 23. */
  lemma AgreementDecidesIff(l: Layout, d: seq<Descriptor>)
    requires LayoutOk(l) && DescribesUpTo(l, d, C_NUM)
    ensures AgreementDecides(l, d) <==> l.layers * l.slots <= 23
  {
    OneTurnIff(l);
    if OneTurn(l) {
      forall cw: seq<int>, kernel: seq<int>, oracle: seq<int> | Instance(l, d, cw, kernel, oracle) && kernel == oracle
        ensures AllHarmless(Wrapping, cw, l)
      {
        KernelIsOracleIff(Wrapping, cw, l, d, kernel, oracle);
      }
    } else {
      var cw, out := RepetitionHides(l, d);
    }
  }
}
