/** The tiled rate de-matching kernel and its agreement with the scalar oracle. */
module RateDematchKernel {
  import opened Arith
  import opened PuschTypes
  import opened RateProfile
  import opened CircularBuffer
  import opened RateDematch

  /** Element k of the circular buffer in the resident row. */
  function Cell(lam: seq<int>, k: nat): int
    requires k < N_CB_BUF && |lam| == LDPC_N
  {
    lam[N_2Z + k]
  }

  /** The resident row holds the sums of the first n values. */
  ghost predicate Resident(lam: seq<int>, vals: seq<int>, k0: nat, n: nat) {
    && |lam| == LDPC_N && n <= |vals|
    && (forall k: nat :: k < N_2Z ==> lam[k] == 0)
    && forall k: nat :: k < N_CB_BUF ==> Cell(lam, k) == Fold(vals, k0, k, n)
  }

  // ---------- one tile ----------

  function Tiled(source: seq<int>, delta: nat, e: nat): int
    requires delta + e < |source|
  {
    source[delta + e]
  }

  /** Aligned read of a run: the copy starts and ends on a 16-element boundary, inside the input and
      inside the tile buffer. */
  method LoadTile(source: array<int>, cw: seq<int>, from: nat, count: nat) returns (delta: nat)
    requires source.Length == TILE_PAD_ELEMS && count <= TILE_ELEMS && from + count <= |cw| && |cw| % ALIGN_ELEMS == 0
    modifies source
    ensures delta == from % 16 && delta + count <= source.Length
    ensures forall e: nat :: e < count ==> Tiled(source[..], delta, e) == cw[from + e]
  {
    var aligned := from / ALIGN_ELEMS * ALIGN_ELEMS;
    delta := from - aligned;
    var copy := (delta + count + ALIGN_ELEMS - 1) / ALIGN_ELEMS * ALIGN_ELEMS;
    assert aligned + copy <= |cw| && copy <= TILE_PAD_ELEMS;
    forall i | 0 <= i < copy {
      source[i] := cw[aligned + i];
    }
  }

  /** Multiply and clip the run in place. */
  method ScaleTile(mode: Multiply, source: array<int>, delta: nat, count: nat)
    requires delta + count <= source.Length
    modifies source
    ensures forall e: nat :: e < count ==>
      Tiled(source[..], delta, e) == Scaled(Kernel(mode), Tiled(old(source[..]), delta, e))
  {
    forall e | 0 <= e < count {
      source[delta + e] := Clip(Muls(mode, source[delta + e] * LLR_SCALE));
    }
  }

  /** The run lies in the tile, scaled. */
  ghost predicate RunHeld(source: seq<int>, delta: nat, vals: seq<int>, n: nat, count: nat) {
    && delta + count <= |source| && n + count <= |vals|
    && forall e: nat :: e < count ==> Tiled(source, delta, e) == vals[n + e]
  }

  ghost predicate CellAdded(now: seq<int>, was: seq<int>, at: nat, source: seq<int>, delta: nat, count: nat, k: nat)
    requires k < N_CB_BUF && |was| == LDPC_N && |now| == LDPC_N && delta + count <= |source|
  {
    Cell(now, k) == if at <= k < at + count then Wrap16(Cell(was, k) + Tiled(source, delta, k - at)) else Cell(was, k)
  }

  /** 16-bit addition of the tile to consecutive cells. */
  method AddTile(lam: array<int>, at: nat, source: array<int>, delta: nat, count: nat)
    requires lam != source && lam.Length == LDPC_N && at + count <= N_CB_BUF && delta + count <= source.Length
    modifies lam
    ensures forall k: nat :: k < N_2Z ==> lam[k] == old(lam[k])
    ensures forall k: nat :: k < N_CB_BUF ==> CellAdded(lam[..], old(lam[..]), at, source[..], delta, count, k)
  {
    forall e | 0 <= e < count {
      lam[N_2Z + at + e] := Wrap16(lam[N_2Z + at + e] + source[delta + e]);
    }
  }

  /** The tile's additions are the next steps of the fold, and never leave the 16-bit range. */
  lemma TileAdded(was: seq<int>, now: seq<int>, source: seq<int>, delta: nat, vals: seq<int>, k0: nat, n: nat,
                  count: nat, at: nat)
    requires Resident(was, vals, k0, n) && RunHeld(source, delta, vals, n, count) && |now| == LDPC_N
    requires at == Position(k0, n) && at + count <= N_CB_BUF && |vals| <= 4 * N_CB_BUF && Bounded(vals, LLR_CLIP)
    requires forall k: nat :: k < N_2Z ==> now[k] == was[k]
    requires forall k: nat :: k < N_CB_BUF ==> CellAdded(now, was, at, source, delta, count, k)
    ensures Resident(now, vals, k0, n + count)
  {
    forall k: nat | k < N_CB_BUF
      ensures Cell(now, k) == Fold(vals, k0, k, n + count)
    {
      assert CellAdded(now, was, at, source, delta, count, k);
      FoldRun(vals, k0, k, n, count);
      AccumulatorFits(vals, k0, k, n + count);
      if at <= k < at + count {
        var e := k - at;
        assert Tiled(source, delta, e) == vals[n + e];
      }
    }
  }

  // ---------- one bit plane ----------

  /** Everything a tile step may use about the block. */
  ghost predicate BlockReady(mode: Multiply, cw: seq<int>, l: Layout, d: Descriptor) {
    && BlockFits(cw, l, d.offset, d.e / Q_M) && d.ncb == N_CB_BUF && d.e <= 4 * N_CB_BUF
    && |cw| % ALIGN_ELEMS == 0
  }

  /** Load, scale and add the run that starts at symbol j of plane bit. */
  method RunTile(mode: Multiply, cw: seq<int>, l: Layout, d: Descriptor, bit: nat, j: nat, count: nat, at: nat,
                 lam: array<int>, source: array<int>)
    requires BlockReady(mode, cw, l, d) && bit < Q_M && lam != source
    requires source.Length == TILE_PAD_ELEMS && lam.Length == LDPC_N && count <= TILE_ELEMS
    requires 0 < count && j + count <= d.e / Q_M && SymbolOf(l, d.offset + j) + count <= Valid(l)
    requires at == Position(d.k0, PlaneStart(bit, d.e / Q_M) + j) && at + count <= N_CB_BUF
    requires Resident(lam[..], Received(Kernel(mode), cw, l, d), d.k0, PlaneStart(bit, d.e / Q_M) + j)
    modifies lam, source
    ensures Resident(lam[..], Received(Kernel(mode), cw, l, d), d.k0, PlaneStart(bit, d.e / Q_M) + j + count)
  {
    ghost var vals, n := Received(Kernel(mode), cw, l, d), PlaneStart(bit, d.e / Q_M) + j;
    IndexInStorage(l, bit, d.offset + j);
    var from := InputIndex(l, bit, d.offset + j);
    var delta := LoadTile(source, cw, from, count);
    ghost var loaded := source[..];
    ScaleTile(mode, source, delta, count);
    RunIsReceived(mode, cw, l, d, bit, j, count, from, loaded, source[..], delta);
    ghost var was := lam[..];
    AddTile(lam, at, source, delta, count);
    SerialBounded(Kernel(mode), cw, l, d.offset, d.e / Q_M, Q_M);
    TileAdded(was, lam[..], source[..], delta, vals, d.k0, n, count, at);
  }

  lemma RunIsReceived(mode: Multiply, cw: seq<int>, l: Layout, d: Descriptor, bit: nat, j: nat, count: nat, from: nat,
                      loaded: seq<int>, scaled: seq<int>, delta: nat)
    requires BlockReady(mode, cw, l, d) && bit < Q_M && 0 < count && j + count <= d.e / Q_M
    requires SymbolOf(l, d.offset + j) + count <= Valid(l)
    requires from == InputIndex(l, bit, d.offset + j) && from + count <= |cw|
    requires delta + count <= |loaded| == |scaled|
    requires forall e: nat :: e < count ==> Tiled(loaded, delta, e) == cw[from + e]
    requires forall e: nat :: e < count ==> Tiled(scaled, delta, e) == Scaled(Kernel(mode), Tiled(loaded, delta, e))
    ensures RunHeld(scaled, delta, Received(Kernel(mode), cw, l, d), PlaneStart(bit, d.e / Q_M) + j, count)
  {
    var vals, n := Received(Kernel(mode), cw, l, d), PlaneStart(bit, d.e / Q_M) + j;
    ReceivedAt(Kernel(mode), cw, l, d, bit, j + count - 1);
    forall e: nat | e < count
      ensures Tiled(scaled, delta, e) == vals[n + e]
    {
      ReceivedAt(Kernel(mode), cw, l, d, bit, j + e);
      RunIsContiguous(l, bit, d.offset + j, e);
      assert Tiled(loaded, delta, e) == cw[from + e];
    }
  }

  /** The next run: up to a tile, not past the plane, the slot's valid symbols or the end of the buffer. */
  method NextRun(l: Layout, d: Descriptor, bit: nat, consumed: nat) returns (count: nat, at: nat)
    requires LayoutOk(l) && consumed < d.e / Q_M && d.ncb == N_CB_BUF
    ensures 0 < count <= TILE_ELEMS && consumed + count <= d.e / Q_M
    ensures SymbolOf(l, d.offset + consumed) + count <= Valid(l)
    ensures at == Position(d.k0, PlaneStart(bit, d.e / Q_M) + consumed) && at + count <= N_CB_BUF
  {
    var eq := d.e / Q_M;
    PlaneStartIsProduct(bit, eq);
    NonNeg(bit, eq);
    var logical := d.offset + consumed;
    var slot := logical / Valid(l);
    var symbol := logical - slot * Valid(l);
    at := (d.k0 + bit * eq + consumed) % d.ncb;
    count := Min(eq - consumed, TILE_ELEMS);
    count := Min(count, Valid(l) - symbol);
    count := Min(count, d.ncb - at);
  }

  method RunPlane(mode: Multiply, cw: seq<int>, l: Layout, d: Descriptor, bit: nat, lam: array<int>, source: array<int>)
    requires BlockReady(mode, cw, l, d) && bit < Q_M && lam != source
    requires source.Length == TILE_PAD_ELEMS && lam.Length == LDPC_N
    requires Resident(lam[..], Received(Kernel(mode), cw, l, d), d.k0, PlaneStart(bit, d.e / Q_M))
    modifies lam, source
    ensures Resident(lam[..], Received(Kernel(mode), cw, l, d), d.k0, PlaneStart(bit + 1, d.e / Q_M))
  {
    var consumed := 0;
    while consumed < d.e / Q_M
      invariant consumed <= d.e / Q_M
      invariant Resident(lam[..], Received(Kernel(mode), cw, l, d), d.k0, PlaneStart(bit, d.e / Q_M) + consumed)
    {
      var count, at := NextRun(l, d, bit, consumed);
      RunTile(mode, cw, l, d, bit, consumed, count, at, lam, source);
      consumed := consumed + count;
    }
  }

  // ---------- one code block, one core, all cores ----------

  method ClipRow(lam: array<int>, ghost vals: seq<int>, k0: nat)
    requires Resident(lam[..], vals, k0, |vals|)
    modifies lam
    ensures RowIs(lam[..], 0, vals, k0)
  {
    ghost var was := lam[..];
    forall k | 0 <= k < N_CB_BUF {
      lam[N_2Z + k] := Clip(lam[N_2Z + k]);
    }
    ghost var now := lam[..];
    forall k: nat | k < LDPC_N
      ensures OutAt(now, 0, k) == Target(vals, k0, k)
    {
      if k >= N_2Z {
        var m: nat := k - N_2Z;
        assert Cell(was, m) == Fold(vals, k0, m, |vals|);
      }
    }
  }

  method RunBlock(mode: Multiply, cw: seq<int>, l: Layout, d: Descriptor, lam: array<int>, source: array<int>)
    requires BlockReady(mode, cw, l, d) && lam != source
    requires source.Length == TILE_PAD_ELEMS && lam.Length == LDPC_N
    modifies lam, source
    ensures RowIs(lam[..], 0, Received(Kernel(mode), cw, l, d), d.k0)
  {
    forall k | 0 <= k < LDPC_N {
      lam[k] := 0;
    }
    for bit := 0 to Q_M
      invariant Resident(lam[..], Received(Kernel(mode), cw, l, d), d.k0, PlaneStart(bit, d.e / Q_M))
    {
      RunPlane(mode, cw, l, d, bit, lam, source);
    }
    PlaneStartAll(d.e / Q_M);
    ClipRow(lam, Received(Kernel(mode), cw, l, d), d.k0);
  }

  /** All rows up to n that a core owns are in place. */
  ghost predicate Owned(core: nat, cb: nat) {
    cb % BLOCK_DIM == core
  }

  ghost predicate BlocksReady(s: Scaler, cw: seq<int>, l: Layout, d: seq<Descriptor>) {
    && LayoutOk(l) && |cw| == Storage(l) && DescribesUpTo(l, d, C_NUM)
    && forall cb: nat :: cb < C_NUM ==> BlockFits(cw, l, d[cb].offset, d[cb].e / Q_M)
  }

  /** What the descriptor of block cb says. */
  lemma BlockIs(s: Scaler, cw: seq<int>, l: Layout, d: seq<Descriptor>, cb: nat)
    requires BlocksReady(s, cw, l, d) && cb < C_NUM
    ensures d[cb].k0 == 0 && d[cb].e / Q_M == BlockSymbols(l, cb) && d[cb].offset == SymbolsBefore(l, cb)
    ensures BlockFits(cw, l, SymbolsBefore(l, cb), BlockSymbols(l, cb))
  {
    assert Describes(l, d[cb], cb);
    assert BlockFits(cw, l, d[cb].offset, d[cb].e / Q_M);
  }

  /** And what it makes the kernel receive. */
  lemma BlockReceives(s: Scaler, cw: seq<int>, l: Layout, d: seq<Descriptor>, cb: nat)
    requires BlocksReady(s, cw, l, d) && cb < C_NUM
    ensures d[cb].k0 == 0 && BlockFits(cw, l, SymbolsBefore(l, cb), BlockSymbols(l, cb))
    ensures Received(s, cw, l, d[cb]) == Serial(s, cw, l, SymbolsBefore(l, cb), BlockSymbols(l, cb), Q_M)
    ensures PlaneStart(Q_M, BlockSymbols(l, cb)) == Q_M * BlockSymbols(l, cb)
  {
    BlockIs(s, cw, l, d, cb);
    PlaneStartAll(BlockSymbols(l, cb));
  }

  /** Row cb of the output is what the block's received values fold to. */
  ghost predicate RowDone(s: Scaler, cw: seq<int>, l: Layout, d: seq<Descriptor>, out: seq<int>, cb: nat)
    requires BlocksReady(s, cw, l, d) && cb < C_NUM
  {
    RowIs(out, cb, Received(s, cw, l, d[cb]), d[cb].k0)
  }

  ghost predicate RowsDone(s: Scaler, cw: seq<int>, l: Layout, d: seq<Descriptor>, out: seq<int>, core: nat, n: nat)
    requires BlocksReady(s, cw, l, d) && n <= C_NUM
  {
    forall cb: nat :: cb < n && Owned(core, cb) ==> RowDone(s, cw, l, d, out, cb)
  }

  lemma ProfileBlocksReady(s: Scaler, cw: seq<int>, l: Layout, d: seq<Descriptor>)
    requires LayoutOk(l) && |cw| == Storage(l) && DescribesUpTo(l, d, C_NUM)
    ensures BlocksReady(s, cw, l, d)
  {
    forall cb: nat | cb < C_NUM
      ensures BlockFits(cw, l, d[cb].offset, d[cb].e / Q_M)
    {
      assert Describes(l, d[cb], cb);
      SymbolsBeforeGrows(l, cb + 1, C_NUM);
      SymbolsCoverAll(l);
    }
  }

  lemma KernelBlockReady(mode: Multiply, cw: seq<int>, l: Layout, d: seq<Descriptor>, cb: nat)
    requires BlocksReady(Kernel(mode), cw, l, d) && cb < C_NUM
    ensures BlockReady(mode, cw, l, d[cb]) && d[cb].e > 0 && d[cb].e % Q_M == 0 && d[cb].k0 < d[cb].ncb
  {
    assert Describes(l, d[cb], cb);
    BlockSymbolsBound(l, cb);
    StorageAligned(l);
  }

  lemma StorageAligned(l: Layout)
    ensures Storage(l) % ALIGN_ELEMS == 0
  {
    assert Storage(l) == l.slots * (l.layers * 153600);
    assert l.slots * (l.layers * 153600) == (l.slots * l.layers * 9600) * 16;
    MultipleAligned(l.slots * l.layers * 9600);
  }

  lemma MultipleAligned(a: int)
    ensures (a * 16) % 16 == 0
  {
  }

  method StoreRow(out: array<int>, cb: nat, lam: array<int>, ghost vals: seq<int>, k0: nat)
    requires out != lam && RowIs(lam[..], 0, vals, k0) && cb * LDPC_N + LDPC_N <= out.Length
    modifies out
    ensures RowIs(out[..], cb, vals, k0) && OthersKept(out[..], old(out[..]), cb)
  {
    ghost var row := lam[..];
    forall k | 0 <= k < LDPC_N {
      out[cb * LDPC_N + k] := lam[k];
    }
    ghost var now := out[..];
    forall k: nat | k < LDPC_N
      ensures OutAt(now, cb, k) == Target(vals, k0, k)
    {
      assert OutAt(row, 0, k) == Target(vals, k0, k);
    }
  }

  lemma RowStays(out: seq<int>, now: seq<int>, cb: nat, cb': nat, vals: seq<int>, k0: nat)
    requires RowIs(out, cb, vals, k0) && OthersKept(now, out, cb') && cb != cb'
    ensures RowIs(now, cb, vals, k0)
  {
    forall k: nat | k < LDPC_N
      ensures OutAt(now, cb, k) == Target(vals, k0, k)
    {
      assert OutAt(out, cb, k) == Target(vals, k0, k);
    }
  }

  lemma RowsStay(s: Scaler, cw: seq<int>, l: Layout, d: seq<Descriptor>, out: seq<int>, now: seq<int>, core: nat,
                 n: nat, cb': nat)
    requires BlocksReady(s, cw, l, d) && n <= C_NUM && RowsDone(s, cw, l, d, out, core, n)
    requires OthersKept(now, out, cb') && (n <= cb' || !Owned(core, cb'))
    ensures RowsDone(s, cw, l, d, now, core, n)
  {
    forall cb: nat | cb < n && Owned(core, cb)
      ensures RowDone(s, cw, l, d, now, cb)
    {
      assert RowDone(s, cw, l, d, out, cb);
      RowStays(out, now, cb, cb', Received(s, cw, l, d[cb]), d[cb].k0);
    }
  }

  /** Rows a core has finished stay finished while another core writes its own. */
  ghost predicate CoresDone(mode: Multiply, cw: seq<int>, l: Layout, d: seq<Descriptor>, out: seq<int>, done: set<nat>)
    requires BlocksReady(Kernel(mode), cw, l, d)
  {
    forall core: nat :: core in done ==> RowsDone(Kernel(mode), cw, l, d, out, core, C_NUM)
  }

  /** One code block of a core. */
  method RunOwned(mode: Multiply, cw: seq<int>, l: Layout, d: seq<Descriptor>, cb: nat, out: array<int>,
                  lam: array<int>, source: array<int>)
    requires BlocksReady(Kernel(mode), cw, l, d) && cb < C_NUM && out.Length == C_NUM * LDPC_N
    requires lam != source && out != lam && out != source && source.Length == TILE_PAD_ELEMS && lam.Length == LDPC_N
    modifies out, lam, source
    ensures RowDone(Kernel(mode), cw, l, d, out[..], cb) && OthersKept(out[..], old(out[..]), cb)
  {
    KernelBlockReady(mode, cw, l, d, cb);
    RunBlock(mode, cw, l, d[cb], lam, source);
    ghost var was := out[..];
    StoreRow(out, cb, lam, Received(Kernel(mode), cw, l, d[cb]), d[cb].k0);
  }

  /** A core has finished its blocks before cb, and the cores before it theirs. */
  ghost predicate Progress(mode: Multiply, cw: seq<int>, l: Layout, d: seq<Descriptor>, out: seq<int>, core: nat,
                           cb: nat, done: set<nat>)
    requires BlocksReady(Kernel(mode), cw, l, d)
  {
    && Owned(core, cb) && CoresDone(mode, cw, l, d, out, done)
    && RowsDone(Kernel(mode), cw, l, d, out, core, Min(cb, C_NUM))
  }

  /** One core: every fourth code block. */
  method RunCore(mode: Multiply, cw: seq<int>, l: Layout, d: seq<Descriptor>, core: nat, out: array<int>,
                 ghost done: set<nat>)
    requires BlocksReady(Kernel(mode), cw, l, d) && core < BLOCK_DIM && out.Length == C_NUM * LDPC_N
    requires core !in done && (forall c :: c in done ==> c < BLOCK_DIM) && CoresDone(mode, cw, l, d, out[..], done)
    modifies out
    ensures CoresDone(mode, cw, l, d, out[..], done + {core})
  {
    ghost var initial := out[..];
    Begins(mode, cw, l, d, initial, core, done);
    var lam, source := new int[LDPC_N], new int[TILE_PAD_ELEMS];
    var cb := core;
    assert out[..] == initial;
    while cb < C_NUM
      invariant Progress(mode, cw, l, d, out[..], core, cb, done)
    {
      ghost var was := out[..];
      RunOwned(mode, cw, l, d, cb, out, lam, source);
      OwnedStep(mode, cw, l, d, was, out[..], core, cb, done);
      cb := cb + BLOCK_DIM;
    }
  }

  lemma OtherCoresStay(mode: Multiply, cw: seq<int>, l: Layout, d: seq<Descriptor>, was: seq<int>, now: seq<int>,
                       core: nat, cb: nat, done: set<nat>)
    requires BlocksReady(Kernel(mode), cw, l, d) && core < BLOCK_DIM && Owned(core, cb) && core !in done
    requires CoresDone(mode, cw, l, d, was, done) && OthersKept(now, was, cb)
    requires forall c :: c in done ==> c < BLOCK_DIM
    ensures CoresDone(mode, cw, l, d, now, done)
  {
    forall c: nat | c in done
      ensures RowsDone(Kernel(mode), cw, l, d, now, c, C_NUM)
    {
      RowsStay(Kernel(mode), cw, l, d, was, now, c, C_NUM, cb);
    }
  }

  lemma OwnRowsGrow(s: Scaler, cw: seq<int>, l: Layout, d: seq<Descriptor>, was: seq<int>, now: seq<int>, core: nat,
                    cb: nat, m: nat)
    requires BlocksReady(s, cw, l, d) && cb < C_NUM && Owned(core, cb) && m <= C_NUM && m <= cb + BLOCK_DIM
    requires RowsDone(s, cw, l, d, was, core, cb) && RowDone(s, cw, l, d, now, cb) && OthersKept(now, was, cb)
    ensures RowsDone(s, cw, l, d, now, core, m)
  {
    RowsStay(s, cw, l, d, was, now, core, cb, cb);
    forall b: nat | b < m && Owned(core, b)
      ensures RowDone(s, cw, l, d, now, b)
    {
      OwnedBelow(core, cb, b);
    }
  }

  /** A core owns every fourth row. */
  lemma OwnedBelow(core: nat, cb: nat, b: nat)
    requires Owned(core, cb) && Owned(core, b) && b < cb + BLOCK_DIM
    ensures b <= cb
  {
  }

  lemma OwnedStep(mode: Multiply, cw: seq<int>, l: Layout, d: seq<Descriptor>, was: seq<int>, now: seq<int>,
                  core: nat, cb: nat, done: set<nat>)
    requires BlocksReady(Kernel(mode), cw, l, d) && core < BLOCK_DIM && cb < C_NUM
    requires core !in done && (forall c :: c in done ==> c < BLOCK_DIM) && Progress(mode, cw, l, d, was, core, cb, done)
    requires RowDone(Kernel(mode), cw, l, d, now, cb) && OthersKept(now, was, cb)
    ensures Progress(mode, cw, l, d, now, core, cb + BLOCK_DIM, done)
  {
    var next := cb + BLOCK_DIM;
    var m := Min(next, C_NUM);
    OtherCoresStay(mode, cw, l, d, was, now, core, cb, done);
    OwnRowsGrow(Kernel(mode), cw, l, d, was, now, core, cb, m);
    NextOwned(core, cb);
  }

  lemma NextOwned(core: nat, cb: nat)
    requires Owned(core, cb)
    ensures Owned(core, cb + BLOCK_DIM)
  {
  }

  lemma Begins(mode: Multiply, cw: seq<int>, l: Layout, d: seq<Descriptor>, out: seq<int>, core: nat, done: set<nat>)
    requires BlocksReady(Kernel(mode), cw, l, d) && core < BLOCK_DIM && CoresDone(mode, cw, l, d, out, done)
    ensures Progress(mode, cw, l, d, out, core, core, done)
  {
    assert forall b: nat :: b < core ==> !Owned(core, b);
  }

  ghost predicate AllRows(s: Scaler, cw: seq<int>, l: Layout, d: seq<Descriptor>, out: seq<int>)
    requires BlocksReady(s, cw, l, d)
  {
    |out| == C_NUM * LDPC_N && forall cb: nat :: cb < C_NUM ==> RowDone(s, cw, l, d, out, cb)
  }

  /** The kernel on all cores. */
  method RateDematchOnCores(mode: Multiply, cw: seq<int>, l: Layout, d: seq<Descriptor>) returns (out: array<int>)
    requires LayoutOk(l) && |cw| == Storage(l) && DescribesUpTo(l, d, C_NUM)
    ensures BlocksReady(Kernel(mode), cw, l, d) && AllRows(Kernel(mode), cw, l, d, out[..])
  {
    ProfileBlocksReady(Kernel(mode), cw, l, d);
    out := new int[C_NUM * LDPC_N];
    ghost var done: set<nat> := {};
    for raw := 0 to BLOCK_DIM
      invariant done == set r: nat | r < raw :: CoreOf(r)
      invariant CoresDone(mode, cw, l, d, out[..], done)
    {
      RunCore(mode, cw, l, d, CoreOf(raw), out, done);
      done := done + {CoreOf(raw)};
    }
    assert CoreOf(0) == 2 && CoreOf(1) == 3 && CoreOf(2) == 0 && CoreOf(3) == 1;
    assert 0 in done && 1 in done && 2 in done && 3 in done;
    forall cb: nat | cb < C_NUM
      ensures RowDone(Kernel(mode), cw, l, d, out[..], cb)
    {
      assert Owned(cb % BLOCK_DIM, cb);
    }
  }

  // ---------- the oracle over the whole codeword, and agreement ----------

  /** The oracle over the whole codeword. It rebuilds the profile and refuses any other layout or descriptors. */
  method ReferenceRateDematch(cw: seq<int>, c: Config, words: LayoutWords, slots: nat, d: seq<Descriptor>)
    returns (status: Status, out: array<int>)
    requires |cw| == Storage(LayoutOf(c, slots))
    ensures status == if ProfileStatus(c, slots) != Ok then ProfileStatus(c, slots)
                      else if words == CurrentLayout(c.layers) && DescribesUpTo(LayoutOf(c, slots), d, C_NUM) then Ok
                      else LayoutMismatch
    ensures status == Ok ==> BlocksReady(Oracle, cw, LayoutOf(c, slots), d)
                             && AllRows(Oracle, cw, LayoutOf(c, slots), d, out[..])
  {
    out := new int[0];
    var expectedWords, expected;
    status, expectedWords, expected := BuildCurrentProfile(c, slots);
    if status != Ok {
      return;
    }
    if words != expectedWords || d != expected {
      if DescribesUpTo(LayoutOf(c, slots), d, C_NUM) {
        DescribedOnce(LayoutOf(c, slots), d, expected);
      }
      return LayoutMismatch, out;
    }
    out := ReferenceBlocks(cw, LayoutOf(c, slots), d);
  }

  method ReferenceBlocks(cw: seq<int>, l: Layout, d: seq<Descriptor>) returns (out: array<int>)
    requires LayoutOk(l) && |cw| == Storage(l) && DescribesUpTo(l, d, C_NUM)
    ensures BlocksReady(Oracle, cw, l, d) && AllRows(Oracle, cw, l, d, out[..])
  {
    ProfileBlocksReady(Oracle, cw, l, d);
    out := new int[C_NUM * LDPC_N](_ => 0);
    for cb := 0 to C_NUM
      invariant forall i :: cb * LDPC_N <= i < out.Length ==> out[i] == 0
      invariant forall b: nat :: b < cb ==> RowDone(Oracle, cw, l, d, out[..], b)
    {
      ghost var was := out[..];
      assert Describes(l, d[cb], cb);
      ReferenceBlock(cw, l, d[cb], out, cb);
      forall b: nat | b < cb
        ensures RowDone(Oracle, cw, l, d, out[..], b)
      {
        assert RowDone(Oracle, cw, l, d, was, b);
        RowStays(was, out[..], b, cb, Received(Oracle, cw, l, d[b]), d[b].k0);
      }
    }
  }
}
