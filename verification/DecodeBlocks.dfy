/** The decoder kernel end to end: one group of code blocks, one core's share, all cores. */
module DecodeBlocks {
  import opened Arith
  import opened LayeredDecoder
  import opened GraphPlan
  import opened ShiftKernel
  import opened CheckKernel
  import opened RowKernel
  import opened GroupRefinement
  import opened DecodeKernel
  import opened DecodeExport

  const CB_GROUP: nat := 2
  /** Channel values of one code block each, column after column. */
  ghost predicate InputsOk(inputs: seq<seq<int>>, n: nat) {
    forall b :: 0 <= b < |inputs| ==> |inputs[b]| == n * Z
  }

  /** What the plain decoder makes of one code block. */
  ghost function Plain(code: Code, q: Quantizer, input: seq<int>, iters: nat): (st: State)
    requires ValidCode(code) && code.z == Z && |input| == code.n * Z
    ensures Shaped(code, st)
  {
    Run(code, q, Channel(input, code.n), StepsIn(code, iters))
  }

  ghost function PlainAll(code: Code, q: Quantizer, inputs: seq<seq<int>>, iters: nat): (sts: seq<State>)
    requires ValidCode(code) && code.z == Z && InputsOk(inputs, code.n)
    ensures |sts| == |inputs|
  {
    seq(|inputs|, b requires 0 <= b < |inputs| => Plain(code, q, inputs[b], iters))
  }

  method Allocate(n: nat, total: nat, batch: nat) returns (w: Workspace)
    requires batch == 1 || batch == 2
    ensures WorkspaceOk(w, n, total, batch) && fresh(Reals(w)) && fresh(Ints(w))
  {
    var lam, ext, mag := new real[Slot(n, 0, batch) * Z], new real[2 * MAX_DEG * Z], new real[2 * MAX_DEG * Z];
    var sgn, sign := new real[2 * MAX_DEG * Z], new real[4 * Z];
    var min1, min2 := new real[4 * Z], new real[4 * Z];
    var slot0, slot1 := new int[2 * MAX_DEG * Z], new int[2 * MAX_DEG * Z];
    var gm := new int[(if batch == 1 then total else 2 * total) * Z];
    w := Workspace(Buffers(lam, ext, mag, Scratch(sgn, sign, min1, min2)), slot0, slot1, gm);
  }

  lemma LanesStart(code: Code, plan: Plan, q: Quantizer, inputs: seq<seq<int>>, lam: seq<real>, gm: seq<int>,
                   order: seq<seq<nat>>, keep: bool, batch: nat)
    requires PlanOk(code, plan, order) && code.z == Z && LaneCount(batch) && |inputs| == batch
    requires InputsOk(inputs, code.n)
    requires forall b: nat :: b < batch ==> LoadedUpTo(lam, Channel(inputs[b], code.n), code.n, b, batch)
    ensures LanesAt(code, q, Channels(inputs, code.n), 0, lam, gm, order, true, keep, 0, batch)
  {
    var chan := Channels(inputs, code.n);
    forall b: nat | b < batch
      ensures LaneAt(code, q, chan, 0, lam, gm, order, true, keep, 0, b, batch)
    {
      assert LoadedUpTo(lam, Channel(inputs[b], code.n), code.n, b, batch);
      LaneStarts(code, plan, q, chan, lam, gm, order, keep, b, batch);
    }
  }

  lemma FinishedIsUnrestored(code: Code, q: Quantizer, inputs: seq<seq<int>>, iters: nat, lam: seq<real>, batch: nat)
    requires ValidCode(code) && code.z == Z && LaneCount(batch) && |inputs| == batch && InputsOk(inputs, code.n)
    requires Finished(code, q, Channels(inputs, code.n), StepsIn(code, iters), lam, batch)
    ensures AllRestored(code, lam, PlainAll(code, q, inputs, iters), 0, batch)
  {
    var sts := PlainAll(code, q, inputs, iters);
    forall b: nat | b < batch
      ensures LaneRestored(code, lam, sts, 0, b, batch)
    {
      assert LaneFinished(code, q, Channels(inputs, code.n), StepsIn(code, iters), lam, b, batch);
      forall c: nat | c < code.n
        ensures RestoredAt(lam, sts[b], LastCoords(code), 0, c, b, batch)
      {
        assert ResidentAt(lam, sts[b], LastCoords(code), c, b, batch);
      }
    }
  }

  /** The loops over a loaded group: every lane ends with the plain result in variable order. */
  method DecodeLanes(ghost code: Code, plan: Plan, ghost order: seq<seq<nat>>, q: Quantizer, degrees: seq<nat>,
                     total: nat, w: Workspace, inputs: seq<seq<int>>, n: nat, batch: nat, iters: nat)
    requires Launch(code, plan, order) && (batch == 1 || batch == 2) && iters >= 1
    requires n == code.n && |inputs| == batch && InputsOk(inputs, n)
    requires |degrees| == |order| && (forall r: nat :: r < |order| ==> degrees[r] == |order[r]|)
    requires total == Total(order) && WorkspaceOk(w, n, total, batch)
    modifies Reals(w), Ints(w)
    ensures AllRestored(code, w.bufs.lam[..], PlainAll(code, q, inputs, iters), n, batch)
  {
    LoadChannels(w.bufs.lam, inputs, n, batch);
    LanesStart(code, plan, q, inputs, w.bufs.lam[..], w.gm[..], order, 1 < iters, batch);
    Iterate(code, plan, order, q, degrees, total, w, Channels(inputs, n), batch, iters);
    FinishedIsUnrestored(code, q, inputs, iters, w.bufs.lam[..], batch);
    RestoreAll(code, plan.last, w.bufs.lam, w.bufs.ext, PlainAll(code, q, inputs, iters), batch);
  }

  ghost predicate GroupExported(out: seq<int>, sts: seq<State>, n: nat) {
    forall b: nat :: b < |sts| ==> LaneExported(out, sts[b], b, n, n)
  }

  ghost predicate GroupDecided(bits: seq<int>, sts: seq<State>, kb: nat) {
    forall b: nat :: b < |sts| ==> LaneDecided(bits, sts[b], b, kb, kb)
  }

  lemma LaneStaysExported(was: seq<int>, now: seq<int>, st: State, n: nat)
    requires LaneExported(was, st, 0, n, n) && |now| == |was|
    requires forall u: nat, i: nat :: i < Z && u * Z + Z <= |now| && !(OutSlot(1, 0, n) <= u < OutSlot(1, n, n)) ==>
      At(now, u, i) == At(was, u, i)
    ensures LaneExported(now, st, 0, n, n)
  {
    forall c: nat | c < n
      ensures ColumnExported(now, st.lam[c], 0, c, n)
    {
      assert ColumnExported(was, st.lam[c], 0, c, n);
    }
  }

  lemma LaneStaysDecided(was: seq<int>, now: seq<int>, st: State, kb: nat)
    requires LaneDecided(was, st, 0, kb, kb) && |now| == |was|
    requires forall u: nat, i: nat :: i < Z && u * Z + Z <= |now| && !(OutSlot(1, 0, kb) <= u < OutSlot(1, kb, kb)) ==>
      At(now, u, i) == At(was, u, i)
    ensures LaneDecided(now, st, 0, kb, kb)
  {
    forall c: nat | c < kb
      ensures ColumnDecided(now, st.lam[c], 0, c, kb)
    {
      assert ColumnDecided(was, st.lam[c], 0, c, kb);
    }
  }

  /** Write the posteriors of all lanes back in block-major order. */
  method ExportGroup(ghost code: Code, lam: array<real>, out: array<int>, ghost sts: seq<State>, n: nat, batch: nat)
    requires (batch == 1 || batch == 2) && n == code.n && out as object != lam && |sts| == batch
    requires ValidCode(code) && AllRestored(code, lam[..], sts, n, batch)
    requires out.Length == (if batch == 1 then n else 2 * n) * Z
    modifies out
    ensures GroupExported(out[..], sts, n)
  {
    assert LaneRestored(code, lam[..], sts, n, 0, batch);
    ExportLane(code, lam, out, sts[0], 0, n, batch);
    if batch == 2 {
      ghost var was := out[..];
      assert LaneRestored(code, lam[..], sts, n, 1, batch);
      ExportLane(code, lam, out, sts[1], 1, n, batch);
      LaneStaysExported(was, out[..], sts[0], n);
    }
  }

  /** Hard decisions on the first kb columns of every lane. */
  method DecideGroup(out: seq<int>, bits: array<int>, ghost sts: seq<State>, n: nat, kb: nat, batch: nat)
    requires (batch == 1 || batch == 2) && kb <= n && |sts| == batch && GroupExported(out, sts, n)
    requires bits.Length == (if batch == 1 then kb else 2 * kb) * Z
    modifies bits
    ensures GroupDecided(bits[..], sts, kb)
  {
    DecideLane(out, bits, sts[0], 0, n, kb, batch);
    if batch == 2 {
      ghost var was := bits[..];
      DecideLane(out, bits, sts[1], 1, n, kb, batch);
      LaneStaysDecided(was, bits[..], sts[0], kb);
    }
  }

  /** Exported posteriors and hard bits of one code block. */
  datatype Decoded = Decoded(llr: seq<int>, bits: seq<int>)

  /** A block's output is the clamped, rounded and decided plain result. */
  ghost predicate BlockDecoded(st: State, n: nat, kb: nat, d: Decoded) {
    && |d.llr| == n * Z && |d.bits| == kb * Z
    && LaneExported(d.llr, st, 0, n, n) && LaneDecided(d.bits, st, 0, kb, kb)
  }

  lemma TakeExported(out: seq<int>, st: State, b: nat, n: nat, from: nat)
    requires b < 2 && LaneExported(out, st, b, n, n) && from == OutSlot(b, 0, n) * Z && from + n * Z <= |out|
    ensures LaneExported(out[from..from + n * Z], st, 0, n, n)
  {
    var mine := out[from..from + n * Z];
    forall c: nat | c < n
      ensures ColumnExported(mine, st.lam[c], 0, c, n)
    {
      assert ColumnExported(out, st.lam[c], b, c, n);
      forall i: nat | i < Z
        ensures At(mine, OutSlot(0, c, n), i) == Exported(st.lam[c][i])
      {
        assert At(mine, c, i) == At(out, OutSlot(b, c, n), i);
      }
    }
  }

  lemma TakeDecided(bits: seq<int>, st: State, b: nat, kb: nat, from: nat)
    requires b < 2 && LaneDecided(bits, st, b, kb, kb) && from == OutSlot(b, 0, kb) * Z && from + kb * Z <= |bits|
    ensures LaneDecided(bits[from..from + kb * Z], st, 0, kb, kb)
  {
    var mine := bits[from..from + kb * Z];
    forall c: nat | c < kb
      ensures ColumnDecided(mine, st.lam[c], 0, c, kb)
    {
      assert ColumnDecided(bits, st.lam[c], b, c, kb);
      forall i: nat | i < Z
        ensures At(mine, OutSlot(0, c, kb), i) == Decided(st.lam[c][i])
      {
        assert At(mine, c, i) == At(bits, OutSlot(b, c, kb), i);
      }
    }
  }

  /** One lane's share of the group's block-major output. */
  method TakeBlock(out: seq<int>, bits: seq<int>, ghost sts: seq<State>, b: nat, n: nat, kb: nat, batch: nat)
    returns (d: Decoded)
    requires b < batch <= 2 && |sts| == batch && GroupExported(out, sts, n) && GroupDecided(bits, sts, kb)
    requires |out| == (if batch == 1 then n else 2 * n) * Z && |bits| == (if batch == 1 then kb else 2 * kb) * Z
    ensures BlockDecoded(sts[b], n, kb, d)
  {
    var from, from' := OutSlot(b, 0, n) * Z, OutSlot(b, 0, kb) * Z;
    TakeExported(out, sts[b], b, n, from);
    TakeDecided(bits, sts[b], b, kb, from');
    d := Decoded(out[from..from + n * Z], bits[from'..from' + kb * Z]);
  }

  /** One group of one or two code blocks. */
  method DecodeGroup(ghost code: Code, plan: Plan, ghost order: seq<seq<nat>>, q: Quantizer, degrees: seq<nat>,
                     total: nat, inputs: seq<seq<int>>, n: nat, kb: nat, iters: nat) returns (ds: seq<Decoded>)
    requires Launch(code, plan, order) && (|inputs| == 1 || |inputs| == 2) && iters >= 1
    requires n == code.n && kb <= n && InputsOk(inputs, n)
    requires |degrees| == |order| && (forall r: nat :: r < |order| ==> degrees[r] == |order[r]|)
    requires total == Total(order)
    ensures |ds| == |inputs|
    ensures forall b: nat :: b < |ds| ==> BlockDecoded(Plain(code, q, inputs[b], iters), n, kb, ds[b])
  {
    var batch := |inputs|;
    var w := Allocate(n, total, batch);
    DecodeLanes(code, plan, order, q, degrees, total, w, inputs, n, batch, iters);
    ghost var sts := PlainAll(code, q, inputs, iters);
    var out, bits := new int[(if batch == 1 then n else 2 * n) * Z], new int[(if batch == 1 then kb else 2 * kb) * Z];
    ExportGroup(code, w.bufs.lam, out, sts, n, batch);
    DecideGroup(out[..], bits, sts, n, kb, batch);
    var d := TakeBlock(out[..], bits[..], sts, 0, n, kb, batch);
    ds := [d];
    if batch == 2 {
      d := TakeBlock(out[..], bits[..], sts, 1, n, kb, batch);
      ds := ds + [d];
    }
  }

  ghost predicate BlocksDecoded(code: Code, q: Quantizer, inputs: seq<seq<int>>, iters: nat, kb: nat, from: nat,
                                ds: seq<Decoded>)
    requires ValidCode(code) && code.z == Z && InputsOk(inputs, code.n)
  {
    && from + |ds| <= |inputs|
    && forall b: nat :: b < |ds| ==> BlockDecoded(Plain(code, q, inputs[from + b], iters), code.n, kb, ds[b])
  }

  lemma BlocksAppend(code: Code, q: Quantizer, inputs: seq<seq<int>>, iters: nat, kb: nat, from: nat, ds: seq<Decoded>,
                     base: nat, more: seq<Decoded>)
    requires ValidCode(code) && code.z == Z && InputsOk(inputs, code.n) && base == from + |ds|
    requires BlocksDecoded(code, q, inputs, iters, kb, from, ds)
    requires BlocksDecoded(code, q, inputs, iters, kb, base, more)
    ensures BlocksDecoded(code, q, inputs, iters, kb, from, ds + more)
  {
    var all := ds + more;
    forall b: nat | b < |all|
      ensures BlockDecoded(Plain(code, q, inputs[from + b], iters), code.n, kb, all[b])
    {
      if b >= |ds| {
        var e := b - |ds|;
        assert BlockDecoded(Plain(code, q, inputs[base + e], iters), code.n, kb, more[e]);
      }
    }
  }

  /** The blocks base, base + 1, ... of the input as one group. */
  method DecodeGroupAt(ghost code: Code, plan: Plan, ghost order: seq<seq<nat>>, q: Quantizer, degrees: seq<nat>,
                       total: nat, inputs: seq<seq<int>>, n: nat, kb: nat, iters: nat, base: nat, batch: nat)
    returns (ds: seq<Decoded>)
    requires Launch(code, plan, order) && iters >= 1 && (batch == 1 || batch == 2)
    requires n == code.n && kb <= n && InputsOk(inputs, n) && base + batch <= |inputs|
    requires |degrees| == |order| && (forall r: nat :: r < |order| ==> degrees[r] == |order[r]|)
    requires total == Total(order)
    ensures |ds| == batch && BlocksDecoded(code, q, inputs, iters, kb, base, ds)
  {
    var group := inputs[base..base + batch];
    ds := DecodeGroup(code, plan, order, q, degrees, total, group, n, kb, iters);
    assert forall b: nat :: b < batch ==> group[b] == inputs[base + b];
  }

  /** One core: its consecutive code blocks, two at a time, a last odd one alone. */
  method DecodeCore(ghost code: Code, plan: Plan, ghost order: seq<seq<nat>>, q: Quantizer, degrees: seq<nat>,
                    total: nat, inputs: seq<seq<int>>, n: nat, kb: nat, iters: nat, begin: nat,
                    end: nat) returns (ds: seq<Decoded>)
    requires Launch(code, plan, order) && iters >= 1
    requires n == code.n && kb <= n && InputsOk(inputs, n) && begin <= end <= |inputs|
    requires |degrees| == |order| && (forall r: nat :: r < |order| ==> degrees[r] == |order[r]|)
    requires total == Total(order)
    ensures |ds| == end - begin && BlocksDecoded(code, q, inputs, iters, kb, begin, ds)
  {
    ds := [];
    var base := begin;
    while base < end
      invariant begin <= base <= end && |ds| == base - begin
      invariant BlocksDecoded(code, q, inputs, iters, kb, begin, ds)
    {
      var batch := if end - base < CB_GROUP then end - base else CB_GROUP;
      var group := DecodeGroupAt(code, plan, order, q, degrees, total, inputs, n, kb, iters, base, batch);
      BlocksAppend(code, q, inputs, iters, kb, begin, ds, base, group);
      ds := ds + group;
      base := base + batch;
    }
  }

  /** Each core's share starts where the previous one ends, and the shares end with the last block. */
  lemma SharesTile(blocks: nat, aiv: nat)
    requires aiv < BLOCK_DIM
    ensures blocks * 0 / BLOCK_DIM == 0 && blocks * BLOCK_DIM / BLOCK_DIM == blocks
    ensures blocks * aiv / BLOCK_DIM <= blocks * (aiv + 1) / BLOCK_DIM <= blocks
  {
  }

  /** All cores together decode every block, in order. */
  method DecodeAll(ghost code: Code, plan: Plan, ghost order: seq<seq<nat>>, q: Quantizer, degrees: seq<nat>,
                   total: nat, inputs: seq<seq<int>>, n: nat, kb: nat, iters: nat) returns (ds: seq<Decoded>)
    requires Launch(code, plan, order) && iters >= 1
    requires n == code.n && kb <= n && InputsOk(inputs, n)
    requires |degrees| == |order| && (forall r: nat :: r < |order| ==> degrees[r] == |order[r]|)
    requires total == Total(order)
    ensures |ds| == |inputs| && BlocksDecoded(code, q, inputs, iters, kb, 0, ds)
  {
    ds := [];
    for aiv := 0 to BLOCK_DIM
      invariant |ds| == |inputs| * aiv / BLOCK_DIM <= |inputs|
      invariant BlocksDecoded(code, q, inputs, iters, kb, 0, ds)
    {
      SharesTile(|inputs|, aiv);
      var begin, end := |inputs| * aiv / BLOCK_DIM, |inputs| * (aiv + 1) / BLOCK_DIM;
      var share := DecodeCore(code, plan, order, q, degrees, total, inputs, n, kb, iters, begin, end);
      BlocksAppend(code, q, inputs, iters, kb, 0, ds, begin, share);
      ds := ds + share;
    }
  }

  /** Edges per code block: the length of its message area. */
  method CountEdges(code: Code, ghost order: seq<seq<nat>>) returns (degrees: seq<nat>, total: nat)
    requires ValidCode(code) && |order| == |code.table|
    requires forall r: nat :: r < |order| ==> |order[r]| == Degree(code, r)
    ensures |degrees| == |order| && (forall r: nat :: r < |order| ==> degrees[r] == |order[r]|)
    ensures total == Total(order)
  {
    degrees, total := [], 0;
    while |degrees| < |code.table|
      invariant |degrees| <= |code.table| && total == EdgesBefore(order, |degrees|)
      invariant forall r: nat :: r < |degrees| ==> degrees[r] == |order[r]|
    {
      var deg := Degree(code, |degrees|);
      assert deg == |order[|degrees|]|;
      total := total + deg;
      degrees := degrees + [deg];
    }
  }

  /**
   The whole decoder: pack the table on the host, build both shift plans, and decode every block in
   moving coordinates. Its output is the plain layered decoder's, clamped, rounded and decided.
   */
  method Decode(code: Code, q: Quantizer, inputs: seq<seq<int>>, kb: nat, iters: nat) returns (ds: seq<Decoded>)
    requires FitsWords(code) && code.z == Z && FusedRowsOk(code) && kb <= code.n && iters >= 1
    requires InputsOk(inputs, code.n)
    ensures |ds| == |inputs| && BlocksDecoded(code, q, inputs, iters, kb, 0, ds)
  {
    var bc, sh := PackTable(code);
    var plan := BuildPlan(code, bc, sh);
    ghost var order := BuiltPlanOk(code, plan);
    var degrees, total := CountEdges(code, order);
    ds := DecodeAll(code, plan, order, q, degrees, total, inputs, code.n, kb, iters);
  }

  // ---------- what the output means ----------

  /** Every block is decoded by `iters` passes over all rows from its own input, column by column. */
  lemma DecodedByAllPasses(code: Code, q: Quantizer, inputs: seq<seq<int>>, iters: nat, kb: nat, ds: seq<Decoded>,
                           b: nat, chan: seq<Column>)
    requires ValidCode(code) && code.z == Z && InputsOk(inputs, code.n)
    requires BlocksDecoded(code, q, inputs, iters, kb, 0, ds) && b < |ds| && |chan| == code.n
    requires forall c :: 0 <= c < code.n ==> |chan[c]| == 384
    requires forall c, j :: 0 <= c < code.n && 0 <= j < 384 ==> chan[c][j] == inputs[b][c * 384 + j] as real
    ensures iters * |code.table| >= 0
    ensures BlockDecoded(Run(code, q, chan, iters * |code.table|), code.n, kb, ds[b])
  {
    StepsInIsProduct(code, iters);
    var loaded := Channel(inputs[b], code.n);
    forall c | 0 <= c < code.n
      ensures chan[c] == loaded[c]
    {
      assert forall j :: 0 <= j < 384 ==> chan[c][j] == loaded[c][j];
    }
    assert chan == loaded;
    assert BlockDecoded(Plain(code, q, inputs[0 + b], iters), code.n, kb, ds[b]);
  }

  ghost predicate InputAgrees(code: Code, w: Word, input: seq<int>)
    requires ValidCode(code) && code.z == Z && WordShaped(code, w) && |input| == code.n * Z
  {
    forall c, j :: 0 <= c < code.n && 0 <= j < Z ==> Towards(w[c][j], input[c * Z + j] as real) >= 0.0
  }

  lemma RintKeepsSide(x: real)
    ensures x >= 1.0 ==> Exported(x) >= 1
    ensures x <= -1.0 ==> Exported(x) <= -1
    ensures x >= 0.0 ==> Exported(x) >= 0
    ensures x <= 0.0 ==> Exported(x) <= 0
  {
  }

  lemma ChannelSide(code: Code, w: Word, input: seq<int>)
    requires ValidCode(code) && code.z == Z && WordShaped(code, w) && |input| == code.n * Z
    requires InputAgrees(code, w, input)
    ensures ChannelAgrees(code, w, Channel(input, code.n))
  {
    var chan := Channel(input, code.n);
    forall c, j | 0 <= c < code.n && 0 <= j < code.z
      ensures Towards(w[c][j], chan[c][j]) >= 0.0
    {
      assert Towards(w[c][j], input[c * Z + j] as real) >= 0.0;
    }
  }

  /** A posterior whose channel value is a nonzero integer stays at least one away from zero. */
  lemma PosteriorSide(code: Code, q: Quantizer, w: Word, input: seq<int>, iters: nat, c: nat, j: nat)
    requires ValidCode(code) && code.z == Z && IsCodeword(code, w) && |input| == code.n * Z && TowardZero(q)
    requires InputAgrees(code, w, input) && c < code.n && j < Z && input[c * Z + j] != 0
    ensures Towards(w[c][j], Plain(code, q, input, iters).lam[c][j]) >= 1.0
  {
    var chan := Channel(input, code.n);
    ChannelSide(code, w, input);
    NoBitFlips(code, q, w, chan, StepsIn(code, iters), c, j);
    assert chan[c][j] == input[c * Z + j] as real;
  }

  /** The outputs at one position. */
  lemma OutputAt(st: State, n: nat, kb: nat, d: Decoded, c: nat, j: nat)
    requires BlockDecoded(st, n, kb, d) && c < kb <= n && j < Z
    ensures c < |st.lam| && |st.lam[c]| == Z
    ensures d.llr[c * Z + j] == Exported(st.lam[c][j]) && d.bits[c * Z + j] == Decided(st.lam[c][j])
  {
    assert ColumnExported(d.llr, st.lam[c], 0, c, n) && ColumnDecided(d.bits, st.lam[c], 0, c, kb);
    assert At(d.llr, OutSlot(0, c, n), j) == Exported(st.lam[c][j]);
    assert At(d.bits, OutSlot(0, c, kb), j) == Decided(st.lam[c][j]);
  }

  /** y is no nearer to x than r, and if it is as near, then r is even. */
  ghost predicate NoNearer(x: real, r: int, y: int) {
    Abs(x - r as real) <= Abs(x - y as real) && (y != r && Abs(x - r as real) == Abs(x - y as real) ==> r % 2 == 0)
  }

  lemma ExportIsNearest(x: real, y: int)
    requires -5120 <= y <= 5120
    ensures -5120 <= Exported(x) <= 5120 && NoNearer(x, Exported(x), y)
  {
    var r, f := Exported(x), Clamp(x).Floor;
    assert r == f || r == f + 1;
    if y < r {
      assert y as real <= (r - 1) as real;
    } else if y > r {
      assert y as real >= (r + 1) as real;
    }
  }

  /** Every exported soft value is the integer of the public range nearest to the plain decoder's posterior, the even
      one where two are equally near. */
  lemma OutputIsNearest(st: State, n: nat, kb: nat, d: Decoded, c: nat, j: nat, y: int)
    requires BlockDecoded(st, n, kb, d) && c < n && j < 384 && -5120 <= y <= 5120
    ensures |d.llr| == 384 * n && c < |st.lam| && |st.lam[c]| == 384 && c * 384 + j < |d.llr|
    ensures -5120 <= d.llr[c * 384 + j] <= 5120
    ensures NoNearer(st.lam[c][j], d.llr[c * 384 + j], y)
  {
    assert ColumnExported(d.llr, st.lam[c], 0, c, n);
    assert At(d.llr, OutSlot(0, c, n), j) == Exported(st.lam[c][j]);
    ExportIsNearest(st.lam[c][j], y);
  }

  /** The hard bit of every information position is one exactly where the soft value is negative, zero otherwise. */
  lemma OutputIsDecided(st: State, n: nat, kb: nat, d: Decoded, c: nat, j: nat)
    requires BlockDecoded(st, n, kb, d) && c < kb <= n && j < 384
    ensures |d.bits| == 384 * kb && c * 384 + j < |d.bits| && c * 384 + j < |d.llr|
    ensures d.bits[c * 384 + j] == if d.llr[c * 384 + j] < 0 then 1 else 0
  {
    OutputAt(st, n, kb, d, c, j);
  }

  /** A decoded bit is the codeword's wherever its channel value was not zero. */
  lemma DecodesSentBits(code: Code, q: Quantizer, w: Word, input: seq<int>, iters: nat, kb: nat, d: Decoded, c: nat,
                        j: nat)
    requires ValidCode(code) && code.z == Z && IsCodeword(code, w) && |input| == code.n * Z && TowardZero(q)
    requires InputAgrees(code, w, input) && kb <= code.n
    requires BlockDecoded(Plain(code, q, input, iters), code.n, kb, d)
    requires c < kb && j < Z && input[c * Z + j] != 0
    ensures d.bits[c * Z + j] == w[c][j]
    ensures if w[c][j] == 1 then d.llr[c * Z + j] < 0 else d.llr[c * Z + j] > 0
  {
    var x := Plain(code, q, input, iters).lam[c][j];
    PosteriorSide(code, q, w, input, iters, c, j);
    OutputAt(Plain(code, q, input, iters), code.n, kb, d, c, j);
    RintKeepsSide(x);
  }
}
