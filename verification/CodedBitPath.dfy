/** The coded-bit path end to end: encode, match, scramble, channel, descramble, de-match, decode. */
module CodedBitPath {
  import LD = LayeredDecoder
  import SK = ShiftKernel
  import QC = QcMatrix
  import EB = EncodeBlock
  import EC = EncodeCores
  import ES = EncodeSyndrome
  import EK = EncodeKernel
  import GP = GraphPlan
  import DK = DecodeKernel
  import DB = DecodeBlocks
  import opened PuschTypes
  import opened RateProfile
  import opened Planes
  import opened CircularBuffer
  import opened RateDematch
  import opened RateDematchKernel
  import opened RateMatch
  import opened Scramble
  import opened Descramble

  /** Information, inverse and parity columns of the code in use. */
  const KB: nat := 22
  const G: nat := 4
  const ROWS: nat := 42

  /** Everything the two ends have in common. */
  ghost predicate LinkOk(code: LD.Code, t: EB.Tables, b: QC.Matrix, l: Layout) {
    && LayoutOk(l) && ES.EncoderFor(code, t, b, KB) && |t.a| == G && |t.c| == ROWS
  }

  /** Information bits of every code block. */
  ghost predicate InfosOk(infos: seq<seq<int>>) {
    && |infos| == C_NUM
    && forall cb :: 0 <= cb < C_NUM ==> InfoOk(infos[cb])
  }

  ghost predicate InfoOk(info: seq<int>) {
    |info| == KB * SK.Z && forall i :: 0 <= i < |info| ==> info[i] == 0 || info[i] == 1
  }

  ghost function Sent(t: EB.Tables, info: seq<int>): (w: LD.Word)
    requires EB.TablesOk(t, KB, G) && |t.a| == G && |t.c| == ROWS && InfoOk(info)
    ensures |w| == KB + G + ROWS && forall c :: 0 <= c < |w| ==> |w[c]| == SK.Z
  {
    EB.Codeword(t, EB.InfoBlocks(info, KB))
  }

  /** What the demodulator must deliver for every transmitted bit. */
  ghost predicate ChannelOk(scrambled: seq<int>, qam: seq<int>, mode: Multiply, l: Layout) {
    && |scrambled| == |qam| == Storage(l)
    && forall slot: nat, q: nat, i: nat :: InPlane(l, slot, q, i) && i < Valid(l) ==>
         ElementOk(scrambled, qam, mode, l, slot, q, i)
  }

  /** Nonzero, of the right sign; within the unwrapped range if the vector unit wraps. */
  ghost predicate ElementOk(scrambled: seq<int>, qam: seq<int>, mode: Multiply, l: Layout, slot: nat, q: nat, i: nat)
    requires |scrambled| == |qam| == Storage(l) && InPlane(l, slot, q, i)
  {
    && Delivered(scrambled, qam, mode, l, slot, q, i)
    && (mode == Wrapping ==> -4095 <= El(qam, l, slot, q, i) <= 4095)
  }

  // ---------- transmitter ----------

  ghost predicate Coded(codes: seq<seq<int>>, t: EB.Tables, infos: seq<seq<int>>)
    requires EB.TablesOk(t, KB, G) && |t.a| == G && |t.c| == ROWS && InfosOk(infos)
  {
    && Buffers(codes)
    && forall cb: nat :: cb < C_NUM ==> BlockCoded(codes[cb], t, infos[cb])
  }

  ghost predicate BlockCoded(coded: seq<int>, t: EB.Tables, info: seq<int>)
    requires EB.TablesOk(t, KB, G) && |t.a| == G && |t.c| == ROWS && InfoOk(info)
  {
    EB.BlocksUpTo(coded, Sent(t, info)[2..], KB - 2 + G + ROWS)
  }

  /** Encode, rate match and scramble for an RNTI and cell. */
  method Transmit(h: EC.HostTables, infos: seq<seq<int>>, l: Layout, rnti: nat, cellId: nat)
    returns (codes: seq<seq<int>>, matched: seq<int>, scrambled: seq<int>)
    requires EC.HostOk(h, KB, G, ROWS) && InfosOk(infos) && cellId < 0x8000
    ensures var t := EC.TablesOf(h, KB, G, ROWS);
            |t.a| == G && Coded(codes, t, infos) && Matched(matched, codes, l)
            && Scrambled(scrambled, matched, ScrambleCinit(rnti, 0, cellId), l)
  {
    ghost var t := EC.TablesOf(h, KB, G, ROWS);
    var coded := EC.EncodeAll(h, infos, KB, G, ROWS);
    forall cb: nat | cb < C_NUM
      ensures |coded[cb]| == N_CB_BUF && BlockCoded(coded[cb], t, infos[cb])
    {
      assert EC.EncodedAt(coded, t, infos, KB, cb);
    }
    var planes := MatchRate(coded, l);
    codes, matched := coded, planes[..];
    var streams := ScrambleBits(matched, rnti, cellId, l);
    scrambled := streams[..];
  }

  // ---------- receiver ----------

  /** One decoder input per code block. */
  ghost predicate InputsOf(inputs: seq<seq<int>>, rows: seq<int>) {
    && |inputs| == C_NUM && |rows| == C_NUM * LDPC_N
    && forall cb: nat :: cb < C_NUM ==> InputOf(inputs[cb], rows, cb)
  }

  ghost predicate InputOf(input: seq<int>, rows: seq<int>, cb: nat)
    requires cb * LDPC_N + LDPC_N <= |rows|
  {
    |input| == 26112 && forall k: nat :: k < 26112 ==> input[k] == OutAt(rows, cb, k)
  }

  /** Descramble, de-match and decode for a supported configuration. */
  method Receive(code: LD.Code, q: LD.Quantizer, qam: seq<int>, cfg: Config, slots: nat, mode: Multiply, iters: nat)
    returns (sign: seq<int>, soft: seq<int>, d: seq<Descriptor>, rows: seq<int>, inputs: seq<seq<int>>,
             ds: seq<DB.Decoded>)
    requires Widths(cfg) && DescrambleStatus(cfg, slots) == Ok && |qam| == Storage(LayoutOf(cfg, slots)) && iters >= 1
    requires GP.FitsWords(code) && code.z == SK.Z && code.n == KB + G + ROWS && DK.FusedRowsOk(code)
    ensures var l := LayoutOf(cfg, slots);
            && SignTable(sign, ScrambleCinit(cfg.rnti, 0, cfg.dataId), l) && Descrambled(soft, qam, sign, mode, l)
            && DescribesUpTo(l, d, C_NUM) && BlocksReady(Kernel(mode), soft, l, d)
            && AllRows(Kernel(mode), soft, l, d, rows)
    ensures InputsOf(inputs, rows) && DB.InputsOk(inputs, code.n)
    ensures |ds| == C_NUM && DB.BlocksDecoded(code, q, inputs, iters, KB, 0, ds)
  {
    var l := LayoutOf(cfg, slots);
    var status, words, descriptors := BuildCurrentProfile(cfg, slots);
    var signStatus, signs := BuildGoldSign(cfg, words, slots, |qam|);
    var values := DescrambleOnCores(mode, qam, signs[..], l);
    sign, soft := signs[..], values[..];
    var out := RateDematchOnCores(mode, values[..], l, descriptors);
    d, rows := descriptors, out[..];
    inputs := SplitRows(rows);
    ds := DB.Decode(code, q, inputs, KB, iters);
  }

  method SplitRows(rows: seq<int>) returns (inputs: seq<seq<int>>)
    requires |rows| == C_NUM * LDPC_N
    ensures InputsOf(inputs, rows)
  {
    inputs := [];
    for cb := 0 to C_NUM
      invariant |inputs| == cb && forall b: nat :: b < cb ==> InputOf(inputs[b], rows, b)
    {
      inputs := inputs + [rows[cb * LDPC_N..cb * LDPC_N + LDPC_N]];
    }
  }

  // ---------- every received value agrees with the bit it carries ----------

  lemma ScaledSide(mode: Multiply, bit: int, v: int)
    requires Int16(v) && Side(bit, v) > 0 && (mode == Wrapping ==> -4095 <= v <= 4095)
    ensures Side(bit, Scaled(Kernel(mode), v)) > 0
  {
  }

  /** One element of one bit plane. */
  lemma ElementHeard(matched: seq<int>, scrambled: seq<int>, qam: seq<int>, sign: seq<int>, soft: seq<int>,
                     l: Layout, c: nat, mode: Multiply, slot: nat, bit: nat, i: nat)
    requires Scrambled(scrambled, matched, c, l) && ChannelOk(scrambled, qam, mode, l)
    requires SignTable(sign, c, l) && Descrambled(soft, qam, sign, mode, l)
    requires InPlane(l, slot, bit, i) && i < Valid(l)
    requires (El(matched, l, slot, bit, i) == 0 || El(matched, l, slot, bit, i) == 1)
    ensures Side(El(matched, l, slot, bit, i), Scaled(Kernel(mode), El(soft, l, slot, bit, i))) > 0
  {
    assert InPlane(l, slot, NrBitToQamStream(bit), i);
    assert ElementOk(scrambled, qam, mode, l, slot, NrBitToQamStream(bit), i);
    RoundTrip(matched, scrambled, c, l, qam, sign, soft, mode, slot, bit, i);
    ScaledSide(mode, El(matched, l, slot, bit, i), El(soft, l, slot, bit, i));
  }

  lemma SampleIsElement(s: seq<int>, l: Layout, bit: nat, x: nat)
    requires LayoutOk(l) && |s| == Storage(l) && bit < Q_M && x < Symbols(l)
    ensures InPlane(l, SlotOf(l, x), bit, SymbolOf(l, x))
    ensures Sample(s, l, bit, x) == El(s, l, SlotOf(l, x), bit, SymbolOf(l, x))
  {
    LogicalElement(l, bit, x);
  }

  /** One symbol of one bit plane of one block. */
  lemma SymbolHeard(codes: seq<seq<int>>, matched: seq<int>, scrambled: seq<int>, qam: seq<int>, sign: seq<int>,
                    soft: seq<int>, l: Layout, c: nat, mode: Multiply, cb: nat, bit: nat, j: nat, x: nat)
    requires LayoutOk(l) && Matched(matched, codes, l) && Scrambled(scrambled, matched, c, l)
    requires ChannelOk(scrambled, qam, mode, l) && SignTable(sign, c, l) && Descrambled(soft, qam, sign, mode, l)
    requires cb < C_NUM && bit < Q_M && j < BlockSymbols(l, cb) && x == SymbolsBefore(l, cb) + j
    requires Carried(codes, l, cb, bit, j) == 0 || Carried(codes, l, cb, bit, j) == 1
    ensures x < Symbols(l)
    ensures Side(Carried(codes, l, cb, bit, j), Scaled(Kernel(mode), Sample(soft, l, bit, x))) > 0
  {
    MatchedCarries(matched, codes, l, cb, bit, j, x);
    SampleIsElement(matched, l, bit, x);
    SampleIsElement(soft, l, bit, x);
    ElementHeard(matched, scrambled, qam, sign, soft, l, c, mode, SlotOf(l, x), bit, SymbolOf(l, x));
  }

  ghost predicate BitsOnly(s: seq<int>) {
    forall k :: 0 <= k < |s| ==> s[k] == 0 || s[k] == 1
  }

  /** Every value of a block agrees with its buffer position. */
  ghost predicate Heard(coded: seq<int>, vals: seq<int>, n: nat)
    requires |coded| == N_CB_BUF && n <= |vals|
  {
    forall t: nat :: t < n ==> ValueHeard(coded, vals, t)
  }

  ghost predicate ValueHeard(coded: seq<int>, vals: seq<int>, t: nat)
    requires |coded| == N_CB_BUF && t < |vals|
  {
    Side(coded[Position(0, t)], vals[t]) > 0
  }

  lemma PlaneValue(soft: seq<int>, l: Layout, mode: Multiply, offset: nat, eq: nat, bit: nat, vals: seq<int>,
                   coded: seq<int>, j: nat, x: nat, n: nat, v: int)
    requires bit < Q_M && BlockFits(soft, l, offset, eq) && j < eq && x == offset + j && n == PlaneStart(bit, eq) + j
    requires vals == Serial(Kernel(mode), soft, l, offset, eq, bit + 1) && |coded| == N_CB_BUF
    requires v == Scaled(Kernel(mode), Sample(soft, l, bit, x)) && Side(coded[Position(0, n)], v) > 0
    ensures n < |vals| && ValueHeard(coded, vals, n)
  {
    SerialAt(Kernel(mode), soft, l, offset, eq, bit + 1, bit, j);
  }

  lemma PositionHeard(codes: seq<seq<int>>, matched: seq<int>, scrambled: seq<int>, qam: seq<int>, sign: seq<int>,
                      soft: seq<int>, l: Layout, c: nat, mode: Multiply, cb: nat, bit: nat, j: nat, x: nat, n: nat)
    returns (v: int)
    requires LayoutOk(l) && Matched(matched, codes, l) && Scrambled(scrambled, matched, c, l)
    requires ChannelOk(scrambled, qam, mode, l) && SignTable(sign, c, l) && Descrambled(soft, qam, sign, mode, l)
    requires cb < C_NUM && bit < Q_M && BitsOnly(codes[cb]) && j < BlockSymbols(l, cb)
    requires x == SymbolsBefore(l, cb) + j && n == PlaneStart(bit, BlockSymbols(l, cb)) + j
    ensures x < Symbols(l) && v == Scaled(Kernel(mode), Sample(soft, l, bit, x))
    ensures Side(codes[cb][Position(0, n)], v) > 0
  {
    CarriedIsBit(codes, l, cb, bit, j);
    SymbolHeard(codes, matched, scrambled, qam, sign, soft, l, c, mode, cb, bit, j, x);
    v := Scaled(Kernel(mode), Sample(soft, l, bit, x));
  }

  /** One more bit plane of a block. */
  lemma PlaneHeard(codes: seq<seq<int>>, matched: seq<int>, scrambled: seq<int>, qam: seq<int>, sign: seq<int>,
                   soft: seq<int>, l: Layout, c: nat, mode: Multiply, cb: nat, bit: nat, vals: seq<int>, j: nat,
                   eq: nat, offset: nat, n: nat)
    requires LayoutOk(l) && Matched(matched, codes, l) && Scrambled(scrambled, matched, c, l)
    requires ChannelOk(scrambled, qam, mode, l) && SignTable(sign, c, l) && Descrambled(soft, qam, sign, mode, l)
    requires cb < C_NUM && bit < Q_M && BitsOnly(codes[cb]) && eq == BlockSymbols(l, cb) && j < eq
    requires offset == SymbolsBefore(l, cb) && BlockFits(soft, l, offset, eq) && n == PlaneStart(bit, eq) + j
    requires vals == Serial(Kernel(mode), soft, l, offset, eq, bit + 1)
    ensures n < |vals| && ValueHeard(codes[cb], vals, n)
  {
    var x := offset + j;
    var v := PositionHeard(codes, matched, scrambled, qam, sign, soft, l, c, mode, cb, bit, j, x, n);
    PlaneValue(soft, l, mode, offset, eq, bit, vals, codes[cb], j, x, n, v);
  }

  lemma CarriedIsBit(codes: seq<seq<int>>, l: Layout, cb: nat, bit: nat, j: nat)
    requires Buffers(codes) && cb < C_NUM && BitsOnly(codes[cb])
    ensures Carried(codes, l, cb, bit, j) == codes[cb][Position(0, PlaneStart(bit, BlockSymbols(l, cb)) + j)]
    ensures Carried(codes, l, cb, bit, j) == 0 || Carried(codes, l, cb, bit, j) == 1
  {
  }

  lemma {:induction false} SerialHeard(codes: seq<seq<int>>, matched: seq<int>, scrambled: seq<int>, qam: seq<int>,
                                       sign: seq<int>, soft: seq<int>, l: Layout, c: nat, mode: Multiply, cb: nat,
                                       bits: nat)
    requires LayoutOk(l) && Matched(matched, codes, l) && Scrambled(scrambled, matched, c, l)
    requires ChannelOk(scrambled, qam, mode, l) && SignTable(sign, c, l) && Descrambled(soft, qam, sign, mode, l)
    requires cb < C_NUM && bits <= Q_M && BitsOnly(codes[cb])
    requires BlockFits(soft, l, SymbolsBefore(l, cb), BlockSymbols(l, cb))
    ensures Heard(codes[cb], Serial(Kernel(mode), soft, l, SymbolsBefore(l, cb), BlockSymbols(l, cb), bits),
                  PlaneStart(bits, BlockSymbols(l, cb)))
  {
    var eq, offset := BlockSymbols(l, cb), SymbolsBefore(l, cb);
    if bits > 0 {
      var bit := bits - 1;
      SerialHeard(codes, matched, scrambled, qam, sign, soft, l, c, mode, cb, bit);
      var front := Serial(Kernel(mode), soft, l, offset, eq, bit);
      var vals := Serial(Kernel(mode), soft, l, offset, eq, bits);
      forall n: nat | n < PlaneStart(bits, eq)
        ensures ValueHeard(codes[cb], vals, n)
      {
        if n < PlaneStart(bit, eq) {
          assert ValueHeard(codes[cb], front, n);
        } else {
          var j: nat := n - PlaneStart(bit, eq);
          PlaneHeard(codes, matched, scrambled, qam, sign, soft, l, c, mode, cb, bit, vals, j, eq, offset, n);
        }
      }
    }
  }

  /** A whole block, as the de-matching kernel receives it. */
  lemma BlockHeard(codes: seq<seq<int>>, matched: seq<int>, scrambled: seq<int>, qam: seq<int>, sign: seq<int>,
                   soft: seq<int>, l: Layout, c: nat, mode: Multiply, d: seq<Descriptor>, cb: nat)
    requires LayoutOk(l) && Matched(matched, codes, l) && Scrambled(scrambled, matched, c, l)
    requires ChannelOk(scrambled, qam, mode, l) && SignTable(sign, c, l) && Descrambled(soft, qam, sign, mode, l)
    requires BlocksReady(Kernel(mode), soft, l, d) && cb < C_NUM && BitsOnly(codes[cb])
    ensures d[cb].k0 == 0 && |Received(Kernel(mode), soft, l, d[cb])| == Q_M * BlockSymbols(l, cb)
    ensures Heard(codes[cb], Received(Kernel(mode), soft, l, d[cb]), |Received(Kernel(mode), soft, l, d[cb])|)
  {
    BlockReceives(Kernel(mode), soft, l, d, cb);
    SerialHeard(codes, matched, scrambled, qam, sign, soft, l, c, mode, cb, Q_M);
  }

  // ---------- every decoder input agrees with the codeword ----------

  /** A position is transmitted exactly when it is among the first E of a buffer that is not yet full. */
  lemma TransmittedIff(k: nat, n: nat)
    requires k < N_CB_BUF
    ensures Visits(0, k, n) > 0 <==> k < n
  {
    VisitsExactly(0, k, n);
  }

  lemma FoldedSide(coded: seq<int>, vals: seq<int>, k: nat)
    requires |coded| == N_CB_BUF && k < N_CB_BUF && Heard(coded, vals, |vals|)
    ensures Side(coded[k], Clip(Fold(vals, 0, k, |vals|))) >= 0
    ensures k < |vals| ==> Side(coded[k], Clip(Fold(vals, 0, k, |vals|))) > 0
  {
    forall t: nat | t < |vals|
      ensures Side(coded[Position(0, t)], vals[t]) > 0
    {
      assert ValueHeard(coded, vals, t);
    }
    FoldAgrees(coded, vals, 0, k, |vals|);
    TransmittedIff(k, |vals|);
  }

  lemma CodedBit(coded: seq<int>, t: EB.Tables, info: seq<int>, c: nat, j: nat)
    requires EB.TablesOk(t, KB, G) && |t.a| == G && |t.c| == ROWS && InfoOk(info) && |coded| == N_CB_BUF
    requires BlockCoded(coded, t, info) && 2 <= c < KB + G + ROWS && j < SK.Z
    ensures (c - 2) * SK.Z + j < N_CB_BUF && coded[(c - 2) * SK.Z + j] == Sent(t, info)[c][j]
  {
    var w, m := Sent(t, info)[2..], c - 2;
    assert EB.BlockAt(coded, w[m], m);
    assert EK.Lane(coded, m * SK.Z, j) == w[m][j];
  }

  /** Bit values throughout. */
  lemma CodedBits(coded: seq<int>, t: EB.Tables, info: seq<int>)
    requires EB.TablesOk(t, KB, G) && |t.a| == G && |t.c| == ROWS && InfoOk(info) && |coded| == N_CB_BUF
    requires BlockCoded(coded, t, info)
    ensures BitsOnly(coded) && ES.Bits(Sent(t, info))
  {
    InfoBits(info);
    forall k | 0 <= k < |coded|
      ensures coded[k] == 0 || coded[k] == 1
    {
      var c, j := k / SK.Z + 2, k % SK.Z;
      CodedBit(coded, t, info, c, j);
      assert (c - 2) * SK.Z + j == k;
    }
  }

  lemma InfoBits(info: seq<int>)
    requires InfoOk(info)
    ensures ES.Bits(EB.InfoBlocks(info, KB))
  {
  }

  /** The decoder's input for one block agrees with the codeword everywhere, and is nonzero at every
      transmitted position. */
  lemma InputHeard(input: seq<int>, rows: seq<int>, cb: nat, coded: seq<int>, vals: seq<int>, code: LD.Code,
                   t: EB.Tables, b: QC.Matrix, info: seq<int>)
    requires ES.EncoderFor(code, t, b, KB) && |t.a| == G && |t.c| == ROWS && InfoOk(info) && |coded| == N_CB_BUF
    requires BlockCoded(coded, t, info) && LD.WordShaped(code, Sent(t, info))
    requires RowIs(rows, cb, vals, 0) && InputOf(input, rows, cb) && Heard(coded, vals, |vals|)
    ensures DB.InputAgrees(code, Sent(t, info), input)
    ensures forall c: nat, j: nat :: 2 <= c < KB && j < SK.Z && PunctureIndex(c, j) < |vals| ==>
            InputNonzero(input, c, j)
  {
    var w := Sent(t, info);
    forall c, j | 0 <= c < code.n && 0 <= j < SK.Z
      ensures LD.Towards(w[c][j], input[c * SK.Z + j] as real) >= 0.0
    {
      InputElement(input, rows, cb, coded, vals, t, info, c, j);
    }
    forall c: nat, j: nat | 2 <= c < KB && j < SK.Z && PunctureIndex(c, j) < |vals|
      ensures InputNonzero(input, c, j)
    {
      InputElement(input, rows, cb, coded, vals, t, info, c, j);
    }
  }

  /** Buffer position of bit j of column c, after the first two columns are punctured. */
  function PunctureIndex(c: nat, j: nat): nat
    requires c >= 2
  {
    (c - 2) * SK.Z + j
  }

  predicate InputNonzero(input: seq<int>, c: nat, j: nat) {
    c * SK.Z + j < |input| && input[c * SK.Z + j] != 0
  }

  lemma InputElement(input: seq<int>, rows: seq<int>, cb: nat, coded: seq<int>, vals: seq<int>, t: EB.Tables,
                     info: seq<int>, c: nat, j: nat)
    requires EB.TablesOk(t, KB, G) && |t.a| == G && |t.c| == ROWS && InfoOk(info) && |coded| == N_CB_BUF
    requires BlockCoded(coded, t, info) && c < KB + G + ROWS && j < SK.Z
    requires RowIs(rows, cb, vals, 0) && InputOf(input, rows, cb) && Heard(coded, vals, |vals|)
    ensures c * SK.Z + j < |input| && Side(Sent(t, info)[c][j], input[c * SK.Z + j]) >= 0
    ensures c >= 2 && PunctureIndex(c, j) < |vals| ==> input[c * SK.Z + j] != 0
  {
    var k: nat := c * SK.Z + j;
    assert input[k] == OutAt(rows, cb, k) == Target(vals, 0, k);
    if c >= 2 {
      assert k - N_2Z == PunctureIndex(c, j);
      CodedBit(coded, t, info, c, j);
      FoldedSide(coded, vals, PunctureIndex(c, j));
    }
  }

  // ---------- the theorem ----------

  lemma SentIsCodeword(code: LD.Code, t: EB.Tables, b: QC.Matrix, info: seq<int>)
    requires ES.EncoderFor(code, t, b, KB) && |t.a| == G && |t.c| == ROWS && InfoOk(info)
    ensures LD.IsCodeword(code, Sent(t, info))
  {
    InfoBits(info);
    ES.ZeroSyndrome(code, t, b, EB.InfoBlocks(info, KB));
  }

  lemma SentInfo(t: EB.Tables, info: seq<int>, c: nat, j: nat)
    requires EB.TablesOk(t, KB, G) && |t.a| == G && |t.c| == ROWS && InfoOk(info) && c < KB && j < SK.Z
    ensures c * SK.Z + j < |info| && Sent(t, info)[c][j] == info[c * SK.Z + j]
  {
    assert EB.InfoBlocks(info, KB)[c] == info[c * SK.Z..c * SK.Z + SK.Z];
  }

  /**
   End to end. For every information word, layer and slot count, iteration count and cast toward zero:
   if the demodulator delivers nonzero soft values of the right sign, every information bit that was
   transmitted and not punctured is decoded correctly.
   */
  lemma EveryTransmittedBitReturns(
      code: LD.Code, t: EB.Tables, b: QC.Matrix, l: Layout, c: nat, mode: Multiply, q: LD.Quantizer, iters: nat,
      infos: seq<seq<int>>, codes: seq<seq<int>>, matched: seq<int>, scrambled: seq<int>,
      qam: seq<int>, sign: seq<int>, soft: seq<int>, d: seq<Descriptor>, rows: seq<int>, inputs: seq<seq<int>>,
      ds: seq<DB.Decoded>, cb: nat, col: nat, j: nat)
    requires LinkOk(code, t, b, l) && InfosOk(infos) && LD.TowardZero(q)
    // transmitter
    requires Coded(codes, t, infos) && Matched(matched, codes, l) && Scrambled(scrambled, matched, c, l)
    // channel
    requires ChannelOk(scrambled, qam, mode, l)
    // receiver
    requires SignTable(sign, c, l) && Descrambled(soft, qam, sign, mode, l)
    requires BlocksReady(Kernel(mode), soft, l, d) && AllRows(Kernel(mode), soft, l, d, rows)
    requires InputsOf(inputs, rows) && DB.InputsOk(inputs, code.n)
    requires |ds| == C_NUM && DB.BlocksDecoded(code, q, inputs, iters, KB, 0, ds)
    // a transmitted, unpunctured information bit
    requires cb < C_NUM && 2 <= col < KB && j < SK.Z && PunctureIndex(col, j) < Q_M * BlockSymbols(l, cb)
    ensures col * SK.Z + j < |ds[cb].bits| && col * SK.Z + j < |infos[cb]|
    ensures ds[cb].bits[col * SK.Z + j] == infos[cb][col * SK.Z + j]
  {
    var info := infos[cb];
    assert InfoOk(info) && BlockCoded(codes[cb], t, info);
    CodedBits(codes[cb], t, info);
    SentIsCodeword(code, t, b, info);
    BlockHeard(codes, matched, scrambled, qam, sign, soft, l, c, mode, d, cb);
    assert RowDone(Kernel(mode), soft, l, d, rows, cb) && InputOf(inputs[cb], rows, cb);
    InputHeard(inputs[cb], rows, cb, codes[cb], Received(Kernel(mode), soft, l, d[cb]), code, t, b, info);
    assert InputNonzero(inputs[cb], col, j);
    assert DB.BlockDecoded(DB.Plain(code, q, inputs[0 + cb], iters), code.n, KB, ds[cb]);
    DB.DecodesSentBits(code, q, Sent(t, info), inputs[cb], iters, KB, ds[cb], col, j);
    SentInfo(t, info, col, j);
  }

  // ---------- the loop closed ----------

  /** What the channel and demodulator make of a scrambled codeword. */
  type Channel = seq<int> -> seq<int>

  function Deliver(ch: Channel, scrambled: seq<int>): (qam: seq<int>)
    ensures qam == ch(scrambled)
  {
    ch(scrambled)
  }

  ghost predicate Faithful(ch: Channel, mode: Multiply, l: Layout) {
    forall s: seq<int> :: |s| == Storage(l) ==> ChannelOk(s, Deliver(ch, s), mode, l)
  }

  /** Is the bit sent at all? */
  predicate Transmitted(l: Layout, cb: nat, col: nat, j: nat) {
    cb < 143 && 2 <= col < 22 && j < 384 && (col - 2) * 384 + j < 8 * BlockSymbols(l, cb)
  }

  ghost predicate Returned(infos: seq<seq<int>>, ds: seq<DB.Decoded>, cb: nat, col: nat, j: nat) {
    && cb < |infos| && cb < |ds| && col * 384 + j < |infos[cb]| && col * 384 + j < |ds[cb].bits|
    && ds[cb].bits[col * 384 + j] == infos[cb][col * 384 + j]
  }

  /** Transmit, let any faithful channel act, receive: every transmitted information bit returns. */
  method Loopback(h: EC.HostTables, code: LD.Code, ghost b: QC.Matrix, infos: seq<seq<int>>, cfg: Config, slots: nat,
                  ch: Channel, mode: Multiply, q: LD.Quantizer, iters: nat) returns (ds: seq<DB.Decoded>)
    requires Widths(cfg) && DescrambleStatus(cfg, slots) == Ok
    requires EC.HostOk(h, KB, G, ROWS) && InfosOk(infos)
    requires LinkOk(code, EC.TablesOf(h, KB, G, ROWS), b, LayoutOf(cfg, slots))
    requires GP.FitsWords(code) && DK.FusedRowsOk(code) && iters >= 1
    requires Faithful(ch, mode, LayoutOf(cfg, slots)) && LD.TowardZero(q)
    ensures |ds| == C_NUM
    ensures forall cb: nat, col: nat, j: nat ::
      Transmitted(LayoutOf(cfg, slots), cb, col, j) ==> Returned(infos, ds, cb, col, j)
  {
    var l := LayoutOf(cfg, slots);
    ghost var t, c := EC.TablesOf(h, KB, G, ROWS), ScrambleCinit(cfg.rnti, 0, cfg.dataId);
    var codes, matched, scrambled := Transmit(h, infos, l, cfg.rnti, cfg.dataId);
    var qam := Deliver(ch, scrambled);
    assert ChannelOk(scrambled, qam, mode, l);
    var sign, soft, d, rows, inputs;
    sign, soft, d, rows, inputs, ds := Receive(code, q, qam, cfg, slots, mode, iters);
    forall cb: nat, col: nat, j: nat | Transmitted(l, cb, col, j)
      ensures Returned(infos, ds, cb, col, j)
    {
      EveryTransmittedBitReturns(code, t, b, l, c, mode, q, iters, infos, codes, matched, scrambled, qam, sign, soft,
                                 d, rows, inputs, ds, cb, col, j);
    }
  }
}
