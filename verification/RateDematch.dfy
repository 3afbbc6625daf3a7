/** Rate de-matching of one codeword: the scalar oracle and the tiled kernel, proved equal. */
module RateDematch {
  import opened Arith
  import opened RateProfile
  import opened CircularBuffer

  const LLR_SCALE: int := 8
  const TILE_ELEMS: nat := 8192
  const ALIGN_ELEMS: nat := 16
  const TILE_PAD_ELEMS: nat := 8208
  // ---------- scaling ----------

  function Clip(x: int): (r: int)
    ensures -LLR_CLIP <= r <= LLR_CLIP && (-LLR_CLIP <= x <= LLR_CLIP ==> r == x)
    ensures (x > LLR_CLIP ==> r == LLR_CLIP) && (x < -LLR_CLIP ==> r == -LLR_CLIP)
  {
    var low := if x < LLR_CLIP then x else LLR_CLIP;
    if low > -LLR_CLIP then low else -LLR_CLIP
  }

  /** What the vector unit's 16-bit multiplication does beyond the range is not visible in the kernel's code. */
  datatype Multiply = Wrapping | Saturating

  function Muls(mode: Multiply, x: int): int {
    match mode
    case Wrapping => Wrap16(x)
    case Saturating => if x > 0x7fff then 0x7fff else if x < -0x8000 then -0x8000 else x
  }

  /** The oracle scales over 32 bits, the kernel over 16. */
  datatype Scaler = Oracle | Kernel(mode: Multiply)

  function Scaled(s: Scaler, v: int): (r: int)
    ensures -LLR_CLIP <= r <= LLR_CLIP
  {
    match s
    case Oracle => Clip(v * LLR_SCALE)
    case Kernel(mode) => Clip(Muls(mode, v * LLR_SCALE))
  }

  predicate Int16(v: int) {
    -0x8000 <= v < 0x8000
  }

  /** Inputs whose scaled value wraps to something that still clips to the right end. */
  predicate WrapHarmless(v: int) {
    || -4096 <= v <= 4095
    || (v > 0 && 640 <= v % 8192 <= 4095)
    || (v < 0 && 4096 <= v % 8192 <= 7552)
  }

  /** A wrapping kernel agrees with the oracle on exactly these inputs. */
  lemma WrappingAgreesIff(v: int)
    requires Int16(v)
    ensures Scaled(Kernel(Wrapping), v) == Scaled(Oracle, v) <==> WrapHarmless(v)
  {
    var q, u := v / 8192, v % 8192;
    assert v == 8192 * q + u && -4 <= q <= 3;
    assert Wrap16(8 * v) == if u < 4096 then 8 * u else 8 * u - 0x1_0000 by {
      DivModUnique(8 * v + 0x8000, 0x1_0000, if u < 4096 then q else q + 1,
                   if u < 4096 then 8 * u + 0x8000 else 8 * u - 0x8000);
    }
  }

  /** A saturating kernel always agrees. */
  lemma SaturatingAgrees(v: int)
    requires Int16(v)
    ensures Scaled(Kernel(Saturating), v) == Scaled(Oracle, v)
  {
  }

  /** The first input on which a wrapping kernel turns the strongest zero into the strongest one. */
  lemma WrappingFlipsSign()
    ensures Scaled(Oracle, 4096) == LLR_CLIP && Scaled(Kernel(Wrapping), 4096) == -LLR_CLIP
  {
  }

  // ---------- the received values of one code block, in transmission order ----------

  function PlaneStart(bits: nat, eq: nat): nat {
    if bits == 0 then 0 else PlaneStart(bits - 1, eq) + eq
  }

  lemma {:induction false} PlaneStartIsProduct(bits: nat, eq: nat)
    ensures PlaneStart(bits, eq) == bits * eq
  {
    if bits > 0 {
      PlaneStartIsProduct(bits - 1, eq);
      assert bits * eq == (bits - 1) * eq + eq;
    }
  }

  lemma PlaneStartAll(eq: nat)
    ensures PlaneStart(Q_M, eq) == Q_M * eq
  {
    PlaneStartIsProduct(Q_M, eq);
  }

  ghost predicate BlockFits(cw: seq<int>, l: Layout, offset: nat, eq: nat) {
    LayoutOk(l) && |cw| == Storage(l) && offset + eq <= Symbols(l)
  }

  function Sample(cw: seq<int>, l: Layout, bit: nat, logical: nat): int
    requires LayoutOk(l) && |cw| == Storage(l) && bit < Q_M && logical < Symbols(l)
  {
    IndexInStorage(l, bit, logical);
    cw[InputIndex(l, bit, logical)]
  }

  function PlaneValues(s: Scaler, cw: seq<int>, l: Layout, offset: nat, eq: nat, bit: nat): (v: seq<int>)
    requires BlockFits(cw, l, offset, eq) && bit < Q_M
    ensures |v| == eq && forall j: nat :: j < eq ==> v[j] == Scaled(s, Sample(cw, l, bit, offset + j))
  {
    seq(eq, j requires 0 <= j < eq => Scaled(s, Sample(cw, l, bit, offset + j)))
  }

  /** Bit plane after bit plane: value bit * eq + j is symbol j of plane bit. */
  function Serial(s: Scaler, cw: seq<int>, l: Layout, offset: nat, eq: nat, bits: nat): (v: seq<int>)
    requires BlockFits(cw, l, offset, eq) && bits <= Q_M
    ensures |v| == PlaneStart(bits, eq)
  {
    if bits == 0 then [] else Serial(s, cw, l, offset, eq, bits - 1) + PlaneValues(s, cw, l, offset, eq, bits - 1)
  }

  lemma {:induction false} SerialAt(s: Scaler, cw: seq<int>, l: Layout, offset: nat, eq: nat, bits: nat, bit: nat,
                                    j: nat)
    requires BlockFits(cw, l, offset, eq) && bit < bits <= Q_M && j < eq
    ensures PlaneStart(bit, eq) + j < PlaneStart(bits, eq)
    ensures Serial(s, cw, l, offset, eq, bits)[PlaneStart(bit, eq) + j] == Scaled(s, Sample(cw, l, bit, offset + j))
  {
    if bit < bits - 1 {
      SerialAt(s, cw, l, offset, eq, bits - 1, bit, j);
    }
  }

  lemma {:induction false} SerialBounded(s: Scaler, cw: seq<int>, l: Layout, offset: nat, eq: nat, bits: nat)
    requires BlockFits(cw, l, offset, eq) && bits <= Q_M
    ensures Bounded(Serial(s, cw, l, offset, eq, bits), LLR_CLIP)
  {
    if bits > 0 {
      SerialBounded(s, cw, l, offset, eq, bits - 1);
    }
  }

  /** All transmitted values of a block. */
  function Received(s: Scaler, cw: seq<int>, l: Layout, d: Descriptor): (v: seq<int>)
    requires BlockFits(cw, l, d.offset, d.e / Q_M)
    ensures |v| == Q_M * (d.e / Q_M)
  {
    PlaneStartAll(d.e / Q_M);
    Serial(s, cw, l, d.offset, d.e / Q_M, Q_M)
  }

  /** Value n + e of the block, for a run that starts at symbol j of a plane. */
  lemma ReceivedAt(s: Scaler, cw: seq<int>, l: Layout, d: Descriptor, bit: nat, j: nat)
    requires BlockFits(cw, l, d.offset, d.e / Q_M) && bit < Q_M && j < d.e / Q_M
    ensures PlaneStart(bit, d.e / Q_M) + j < |Received(s, cw, l, d)|
    ensures Received(s, cw, l, d)[PlaneStart(bit, d.e / Q_M) + j] == Scaled(s, Sample(cw, l, bit, d.offset + j))
  {
    SerialAt(s, cw, l, d.offset, d.e / Q_M, Q_M, bit, j);
  }

  // ---------- one output row ----------

  /** Element k of a decoder input row: zero for the punctured columns, then the clipped sums. */
  function Target(vals: seq<int>, k0: nat, k: nat): int {
    if k < N_2Z then 0 else Clip(Fold(vals, k0, k - N_2Z, |vals|))
  }

  function OutAt(out: seq<int>, cb: nat, k: nat): int
    requires k < LDPC_N && cb * LDPC_N + LDPC_N <= |out|
  {
    out[cb * LDPC_N + k]
  }

  ghost predicate RowIs(out: seq<int>, cb: nat, vals: seq<int>, k0: nat) {
    && cb * LDPC_N + LDPC_N <= |out|
    && forall k: nat :: k < LDPC_N ==> OutAt(out, cb, k) == Target(vals, k0, k)
  }

  /** The accumulator holds the sums of the first n values. */
  ghost predicate Sums(acc: seq<int>, vals: seq<int>, k0: nat, n: nat) {
    && |acc| == N_CB_BUF && n <= |vals|
    && forall k: nat :: k < N_CB_BUF ==> acc[k] == Fold(vals, k0, k, n)
  }

  lemma SumsStep(was: seq<int>, now: seq<int>, vals: seq<int>, k0: nat, n: nat, p: nat, v: int)
    requires Sums(was, vals, k0, n) && n < |vals| && p == Position(k0, n) && vals[n] == v
    requires now == was[p := was[p] + v]
    ensures Sums(now, vals, k0, n + 1)
  {
  }

  method ReferencePlane(cw: seq<int>, l: Layout, d: Descriptor, bit: nat, acc: array<int>)
    requires LayoutOk(l) && |cw| == Storage(l) && d.offset + d.e / Q_M <= Symbols(l) && bit < Q_M && d.ncb == N_CB_BUF
    requires Sums(acc[..], Received(Oracle, cw, l, d), d.k0, PlaneStart(bit, d.e / Q_M))
    modifies acc
    ensures Sums(acc[..], Received(Oracle, cw, l, d), d.k0, PlaneStart(bit + 1, d.e / Q_M))
  {
    var eq := d.e / Q_M;
    ghost var vals := Received(Oracle, cw, l, d);
    for j := 0 to eq
      invariant Sums(acc[..], vals, d.k0, PlaneStart(bit, eq) + j)
    {
      ReceivedAt(Oracle, cw, l, d, bit, j);
      IndexInStorage(l, bit, d.offset + j);
      PlaneStartIsProduct(bit, eq);
      var value := cw[InputIndex(l, bit, d.offset + j)];
      var circular := (d.k0 + bit * eq + j) % d.ncb;
      ghost var was := acc[..];
      acc[circular] := acc[circular] + Scaled(Oracle, value);
      SumsStep(was, acc[..], vals, d.k0, PlaneStart(bit, eq) + j, circular, Scaled(Oracle, value));
    }
  }

  ghost predicate OthersKept(now: seq<int>, was: seq<int>, cb: nat) {
    && |now| == |was|
    && forall i :: 0 <= i < |was| && !(cb * LDPC_N <= i < cb * LDPC_N + LDPC_N) ==> now[i] == was[i]
  }

  method WriteRow(acc: array<int>, out: array<int>, cb: nat, ghost vals: seq<int>, k0: nat)
    requires acc != out && Sums(acc[..], vals, k0, |vals|) && cb * LDPC_N + LDPC_N <= out.Length
    requires forall i :: cb * LDPC_N <= i < cb * LDPC_N + LDPC_N ==> out[i] == 0
    modifies out
    ensures RowIs(out[..], cb, vals, k0) && OthersKept(out[..], old(out[..]), cb)
  {
    var row := cb * LDPC_N + N_2Z;
    ghost var sums := acc[..];
    forall k | 0 <= k < N_CB_BUF {
      out[row + k] := Clip(acc[k]);
    }
    assert forall k: nat :: k < N_CB_BUF ==> acc[k] == sums[k];
  }

  /** One code block of the scalar oracle. */
  method ReferenceBlock(cw: seq<int>, l: Layout, d: Descriptor, out: array<int>, cb: nat)
    requires BlockFits(cw, l, d.offset, d.e / Q_M) && d.ncb == N_CB_BUF && cb * LDPC_N + LDPC_N <= out.Length
    requires forall i :: cb * LDPC_N <= i < cb * LDPC_N + LDPC_N ==> out[i] == 0
    modifies out
    ensures RowIs(out[..], cb, Received(Oracle, cw, l, d), d.k0) && OthersKept(out[..], old(out[..]), cb)
  {
    var acc := new int[N_CB_BUF](_ => 0);
    for bit := 0 to Q_M
      invariant Sums(acc[..], Received(Oracle, cw, l, d), d.k0, PlaneStart(bit, d.e / Q_M))
      invariant out[..] == old(out[..])
    {
      ReferencePlane(cw, l, d, bit, acc);
    }
    PlaneStartAll(d.e / Q_M);
    WriteRow(acc, out, cb, Received(Oracle, cw, l, d), d.k0);
  }
}
