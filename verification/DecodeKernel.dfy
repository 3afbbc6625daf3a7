/** The decoder kernel for one group of code blocks: all iterations, final rotation, export. */
module DecodeKernel {
  import opened Arith
  import opened LayeredDecoder
  import opened GraphPlan
  import opened ShiftKernel
  import opened GatherKernel
  import opened MessageKernel
  import opened RowKernel
  import opened RowRefinement
  import opened GroupRefinement

  /** Adjacent rows that share one instruction stream. */
  predicate FuseNextRow(br: nat): (fused: bool)
    ensures fused <==> br in {16, 20, 22, 25, 28, 30, 32, 34, 38, 43}
  {
    br == 16 || br == 20 || br == 22 || br == 25 || br == 28 ||
    br == 30 || br == 32 || br == 34 || br == 38 || br == 43
  }

  /** Fused rows have equal degree, no common column, and fit the workspace together. */
  ghost predicate FusedRowsOk(code: Code)
    requires ValidCode(code)
  {
    forall br: nat :: br < |code.table| && FuseNextRow(br) ==> FusedPairOk(code, br)
  }

  ghost predicate FusedPairOk(code: Code, br: nat)
    requires ValidCode(code)
  {
    && br + 1 < |code.table| && Degree(code, br) == Degree(code, br + 1) && 2 * Degree(code, br) <= MAX_DEG
    && forall c: nat :: c < code.n ==> code.table[br][c] < 0 || code.table[br + 1][c] < 0
  }

  /** What the kernel is compiled and launched with. */
  ghost predicate Launch(code: Code, plan: Plan, order: seq<seq<nat>>) {
    && FitsWords(code) && code.z == Z && PlanOk(code, plan, order) && FusedRowsOk(code)
    && forall r: nat :: r < |order| ==> |order[r]| == Degree(code, r)
  }

  lemma GroupShapes(code: Code, plan: Plan, order: seq<seq<nat>>, br: nat)
    requires Launch(code, plan, order) && br < |order|
    ensures var rows := if FuseNextRow(br) then 2 else 1;
            && GroupOf(code, plan, order, br, |order[br]|, rows)
            && 2 <= |order[br]| && (rows == 2 ==> NoCommon(order[br], order[br + 1]))
            && (if rows == 1 then |order[br]| else 2 * |order[br]|) <= MAX_DEG
  {
    assert OrderedRow(code, plan, order, br);
    if FuseNextRow(br) {
      assert FusedPairOk(code, br);
      assert OrderedRow(code, plan, order, br + 1);
      forall c | c in order[br]
        ensures c !in order[br + 1]
      {
        OrderedColumnsIncident(code, plan, order[br], br, c);
        if c in order[br + 1] {
          OrderedColumnsIncident(code, plan, order[br + 1], br + 1, c);
        }
      }
    }
  }

  /** Lane b after k plain row steps, seen before row br of a pass. */
  ghost predicate LaneAt(code: Code, q: Quantizer, chan: seq<seq<Column>>, k: nat, lam: seq<real>, gm: seq<int>,
                         order: seq<seq<nat>>, cold: bool, keep: bool, br: nat, b: nat, batch: nat)
    requires ValidCode(code) && LaneCount(batch) && br <= |code.table| && b < |chan|
  {
    && ChannelShaped(code, chan[b])
    && LaneRelates(code, lam, gm, order, Run(code, q, chan[b], k), cold, keep, br, b, batch)
  }

  ghost predicate LanesAt(code: Code, q: Quantizer, chan: seq<seq<Column>>, k: nat, lam: seq<real>, gm: seq<int>,
                          order: seq<seq<nat>>, cold: bool, keep: bool, br: nat, batch: nat)
    requires ValidCode(code) && LaneCount(batch) && br <= |code.table| && |chan| == batch
  {
    forall b: nat :: b < batch ==> LaneAt(code, q, chan, k, lam, gm, order, cold, keep, br, b, batch)
  }

  lemma RunStep(code: Code, q: Quantizer, lam0: seq<Column>, k: nat, r: nat)
    requires ValidCode(code) && ChannelShaped(code, lam0) && RowAt(code, k) == r
    ensures Run(code, q, lam0, k + 1) == RowStep(code, q, Run(code, q, lam0, k), r)
  {
  }

  /** Step base + r of a pass that starts at step base works on row r. */
  lemma RowAtStep(code: Code, base: nat, r: nat)
    requires |code.table| > 0 && RowAt(code, base) == 0 && r < |code.table|
    ensures RowAt(code, base + r) == r
  {
    DivModUnique(base + r, |code.table|, base / |code.table|, r);
  }

  lemma PassEnds(code: Code, base: nat)
    requires |code.table| > 0 && RowAt(code, base) == 0
    ensures RowAt(code, base + |code.table|) == 0
  {
    var q := base / |code.table|;
    assert (q + 1) * |code.table| == q * |code.table| + |code.table|;
    DivModUnique(base + |code.table|, |code.table|, q + 1, 0);
  }

  lemma LaneAdvancesOne(code: Code, plan: Plan, order: seq<seq<nat>>, q: Quantizer, g: Group, t: Trace,
                        lam0: seq<real>, lam: seq<real>, gm0: seq<int>, gm: seq<int>, chan: seq<seq<Column>>, k: nat,
                        after: nat, steps: nat, b: nat)
    requires GroupRan(code, plan, order, q, g, t, lam0, lam, gm0, gm) && g.rows == 1
    requires |chan| == g.batch && b < g.batch && RowAt(code, k) == g.br && after == g.br + 1 && steps == k + 1
    requires LaneAt(code, q, chan, k, lam0, gm0, order, g.cold, g.keep, g.br, b, g.batch)
    ensures LaneAt(code, q, chan, steps, lam, gm, order, g.cold, g.keep, after, b, g.batch)
  {
    RunStep(code, q, chan[b], k, g.br);
    SingleRowRefines(code, plan, order, q, g, t, lam0, lam, gm0, gm, Run(code, q, chan[b], k), b);
  }

  lemma RunTwoSteps(code: Code, q: Quantizer, lam0: seq<Column>, k: nat, r: nat)
    requires ValidCode(code) && ChannelShaped(code, lam0) && RowAt(code, k) == r && RowAt(code, k + 1) == r + 1
    ensures Run(code, q, lam0, k + 2) == RowStep(code, q, RowStep(code, q, Run(code, q, lam0, k), r), r + 1)
  {
    RunStep(code, q, lam0, k, r);
    RunStep(code, q, lam0, k + 1, r + 1);
  }

  lemma LaneAdvancesTwo(code: Code, plan: Plan, order: seq<seq<nat>>, q: Quantizer, g: Group, t: Trace,
                        lam0: seq<real>, lam: seq<real>, gm0: seq<int>, gm: seq<int>, chan: seq<seq<Column>>, k: nat,
                        after: nat, steps: nat, b: nat)
    requires GroupRan(code, plan, order, q, g, t, lam0, lam, gm0, gm) && g.rows == 2
    requires |chan| == g.batch && b < g.batch && RowAt(code, k) == g.br && RowAt(code, k + 1) == g.br + 1
    requires after == g.br + 2 && steps == k + 2
    requires LaneAt(code, q, chan, k, lam0, gm0, order, g.cold, g.keep, g.br, b, g.batch)
    ensures LaneAt(code, q, chan, steps, lam, gm, order, g.cold, g.keep, after, b, g.batch)
  {
    RunTwoSteps(code, q, chan[b], k, g.br);
    FusedPairRefines(code, plan, order, q, g, t, lam0, lam, gm0, gm, Run(code, q, chan[b], k), b);
  }

  /** One group takes every lane one or two plain row steps further. */
  lemma GroupAdvances(code: Code, plan: Plan, order: seq<seq<nat>>, q: Quantizer, g: Group, t: Trace,
                      lam0: seq<real>, lam: seq<real>, gm0: seq<int>, gm: seq<int>, chan: seq<seq<Column>>, k: nat,
                      after: nat, steps: nat)
    requires GroupRan(code, plan, order, q, g, t, lam0, lam, gm0, gm) && |chan| == g.batch
    requires RowAt(code, k) == g.br && (g.rows == 2 ==> RowAt(code, k + 1) == g.br + 1)
    requires after == g.br + g.rows && steps == k + g.rows
    requires LanesAt(code, q, chan, k, lam0, gm0, order, g.cold, g.keep, g.br, g.batch)
    ensures LanesAt(code, q, chan, steps, lam, gm, order, g.cold, g.keep, after, g.batch)
  {
    forall b: nat | b < g.batch
      ensures LaneAt(code, q, chan, steps, lam, gm, order, g.cold, g.keep, after, b, g.batch)
    {
      if g.rows == 1 {
        LaneAdvancesOne(code, plan, order, q, g, t, lam0, lam, gm0, gm, chan, k, after, steps, b);
      } else {
        LaneAdvancesTwo(code, plan, order, q, g, t, lam0, lam, gm0, gm, chan, k, after, steps, b);
      }
    }
  }

  // ---------- the loops ----------

  /** On-chip buffers, the two message slots, and the group's messages in global memory. */
  datatype Workspace = Workspace(bufs: Buffers, slot0: array<int>, slot1: array<int>, gm: array<int>)

  ghost predicate RealsOk(bufs: Buffers, n: nat, batch: nat)
    requires LaneCount(batch)
  {
    var s := bufs.scratch;
    && bufs.lam != bufs.ext && bufs.lam != bufs.mag && bufs.lam != s.sgn && bufs.lam != s.sign
    && bufs.lam != s.min1 && bufs.lam != s.min2
    && bufs.ext != bufs.mag && bufs.ext != s.sgn && bufs.ext != s.sign && bufs.ext != s.min1 && bufs.ext != s.min2
    && bufs.mag != s.sgn && bufs.mag != s.sign && bufs.mag != s.min1 && bufs.mag != s.min2
    && s.sgn != s.sign && s.sgn != s.min1 && s.sgn != s.min2
    && s.sign != s.min1 && s.sign != s.min2 && s.min1 != s.min2
    && bufs.lam.Length == Slot(n, 0, batch) * Z
    && bufs.ext.Length == bufs.mag.Length == s.sgn.Length == 2 * MAX_DEG * Z
    && s.sign.Length == s.min1.Length == s.min2.Length == 4 * Z
  }

  ghost predicate WorkspaceOk(w: Workspace, n: nat, total: nat, batch: nat)
    requires LaneCount(batch)
  {
    && RealsOk(w.bufs, n, batch)
    && IntsApart(w.bufs, w.slot0) && IntsApart(w.bufs, w.slot1) && IntsApart(w.bufs, w.gm)
    && w.slot0 != w.slot1 && w.slot0 != w.gm && w.slot1 != w.gm
    && w.slot0.Length == w.slot1.Length == 2 * MAX_DEG * Z
    && w.gm.Length == (if batch == 1 then total else 2 * total) * Z
  }

  function Reals(w: Workspace): set<array<real>> {
    {w.bufs.lam, w.bufs.ext, w.bufs.mag, w.bufs.scratch.sgn, w.bufs.scratch.sign, w.bufs.scratch.min1,
     w.bufs.scratch.min2}
  }

  function Ints(w: Workspace): set<array<int>> {
    {w.slot0, w.slot1, w.gm}
  }

  lemma WorkspaceFits(w: Workspace, n: nat, total: nat, order: seq<seq<nat>>, br: nat, deg: nat, rows: nat, batch: nat)
    requires GroupShape(rows, batch) && WorkspaceOk(w, n, total, batch)
    requires br + rows <= |order| && |order[br]| == deg && |order[br + rows - 1]| == deg && total == Total(order)
    requires (if rows == 1 then deg else 2 * deg) <= MAX_DEG
    ensures BuffersOk(w.bufs, n, deg, rows, batch)
    ensures GmRoom(w.gm.Length, w.slot0.Length, EdgesBefore(order, br), deg, total, rows, batch)
    ensures GmRoom(w.gm.Length, w.slot1.Length, EdgesBefore(order, br), deg, total, rows, batch)
  {
    EdgesBeforeGrows(order, br + rows, |order|);
    assert EdgesBefore(order, br + 1) == EdgesBefore(order, br) + deg;
    assert rows == 2 ==> EdgesBefore(order, br + 2) == EdgesBefore(order, br + 1) + deg;
  }

  /** Run one group and relate its buffers to the plain decoder. */
  method StepGroup(ghost code: Code, plan: Plan, ghost order: seq<seq<nat>>, q: Quantizer, w: Workspace,
                   ghost chan: seq<seq<Column>>,
                   g: Group, odd: bool, off: nat, total: nat, ghost k: nat, ghost after: nat, ghost steps: nat)
    requires Launch(code, plan, order) && GroupShape(g.rows, g.batch) && |chan| == g.batch
    requires GroupOf(code, plan, order, g.br, g.deg, g.rows) && 2 <= g.deg
    requires g.rows == 2 ==> NoCommon(order[g.br], order[g.br + 1])
    requires (if g.rows == 1 then g.deg else 2 * g.deg) <= MAX_DEG
    requires total == Total(order) && off == EdgesBefore(order, g.br) && WorkspaceOk(w, code.n, total, g.batch)
    requires after == g.br + g.rows && steps == k + g.rows
    requires RowAt(code, k) == g.br && (g.rows == 2 ==> RowAt(code, k + 1) == g.br + 1)
    requires LanesAt(code, q, chan, k, w.bufs.lam[..], w.gm[..], order, g.cold, g.keep, g.br, g.batch)
    modifies Reals(w), Ints(w)
    ensures LanesAt(code, q, chan, steps, w.bufs.lam[..], w.gm[..], order, g.cold, g.keep, after, g.batch)
  {
    WorkspaceFits(w, code.n, total, order, g.br, g.deg, g.rows, g.batch);
    ghost var lam0, gm0 := w.bufs.lam[..], w.gm[..];
    ghost var t;
    if odd {
      t := RowGroup(code, plan, order, q, g.cold, g.keep, w.bufs, w.slot1, w.gm, g.br, g.deg, off, total, g.rows,
                    g.batch);
    } else {
      t := RowGroup(code, plan, order, q, g.cold, g.keep, w.bufs, w.slot0, w.gm, g.br, g.deg, off, total, g.rows,
                    g.batch);
    }
    GroupAdvances(code, plan, order, q, g, t, lam0, w.bufs.lam[..], gm0, w.gm[..], chan, k, after, steps);
  }

  /** One pass over all rows, group by group, alternating between the two message slots. */
  method Pass(ghost code: Code, plan: Plan, ghost order: seq<seq<nat>>, q: Quantizer, degrees: seq<nat>, total: nat,
              w: Workspace, ghost chan: seq<seq<Column>>, batch: nat, cold: bool, keep: bool, ghost base: nat)
    requires Launch(code, plan, order) && (batch == 1 || batch == 2) && |chan| == batch
    requires |degrees| == |order| && (forall r: nat :: r < |order| ==> degrees[r] == |order[r]|)
    requires total == Total(order) && WorkspaceOk(w, code.n, total, batch)
    requires RowAt(code, base) == 0
    requires LanesAt(code, q, chan, base, w.bufs.lam[..], w.gm[..], order, cold, keep, 0, batch)
    modifies Reals(w), Ints(w)
    ensures LanesAt(code, q, chan, base + |code.table|, w.bufs.lam[..], w.gm[..], order, cold, keep,
                    |code.table|, batch)
  {
    var br, off, odd := 0, 0, false;
    while br < |degrees|
      invariant br <= |degrees| && off == EdgesBefore(order, br)
      invariant LanesAt(code, q, chan, base + br, w.bufs.lam[..], w.gm[..], order, cold, keep, br, batch)
    {
      var rows := if FuseNextRow(br) then 2 else 1;
      ghost var k := base + br;
      GroupShapes(code, plan, order, br);
      RowAtStep(code, base, br);
      if rows == 2 {
        RowAtStep(code, base, br + 1);
      }
      StepGroup(code, plan, order, q, w, chan, Group(br, degrees[br], rows, batch, cold, keep), odd, off, total,
                k, br + rows, k + rows);
      off := off + rows * degrees[br];
      br := br + rows;
      odd := !odd;
    }
  }

  // ---------- all iterations ----------

  /** Row steps in n passes. */
  function StepsIn(code: Code, n: nat): nat {
    if n == 0 then 0 else StepsIn(code, n - 1) + |code.table|
  }

  lemma {:induction false} StepsInIsProduct(code: Code, n: nat)
    requires |code.table| > 0
    ensures StepsIn(code, n) == n * |code.table| && RowAt(code, StepsIn(code, n)) == 0
  {
    if n > 0 {
      StepsInIsProduct(code, n - 1);
      PassEnds(code, StepsIn(code, n - 1));
    }
  }

  /** A pass ends in the coordinates the next one starts from. */
  lemma EndCoords(code: Code, cold: bool)
    requires ValidCode(code)
    ensures CoordsAfter(code, StartOf(code, cold), |code.table|) == LastCoords(code)
  {
    LastCoordsAreSteady(code);
  }

  lemma LaneRestarts(code: Code, q: Quantizer, chan: seq<seq<Column>>, k: nat, lam: seq<real>, gm: seq<int>,
                     order: seq<seq<nat>>, cold: bool, keep: bool, b: nat, batch: nat)
    requires ValidCode(code) && LaneCount(batch) && b < |chan| && |order| == |code.table|
    requires LaneAt(code, q, chan, k, lam, gm, order, cold, true, |code.table|, b, batch)
    ensures LaneAt(code, q, chan, k, lam, gm, order, false, keep, 0, b, batch)
  {
    EndCoords(code, cold);
    var st := Run(code, q, chan[b], k);
    forall r: nat | r < |order|
      ensures RowReady(gm, st, order, false, keep, 0, r, b)
    {
      assert RowReady(gm, st, order, cold, true, |code.table|, r, b);
    }
  }

  lemma LanesRestart(code: Code, q: Quantizer, chan: seq<seq<Column>>, k: nat, lam: seq<real>, gm: seq<int>,
                     order: seq<seq<nat>>, cold: bool, keep: bool, batch: nat)
    requires ValidCode(code) && LaneCount(batch) && |chan| == batch && |order| == |code.table|
    requires LanesAt(code, q, chan, k, lam, gm, order, cold, true, |code.table|, batch)
    ensures LanesAt(code, q, chan, k, lam, gm, order, false, keep, 0, batch)
  {
    forall b: nat | b < batch
      ensures LaneAt(code, q, chan, k, lam, gm, order, false, keep, 0, b, batch)
    {
      LaneRestarts(code, q, chan, k, lam, gm, order, cold, keep, b, batch);
    }
  }

  /** Channel values as loaded: coordinate zero everywhere. */
  ghost predicate Loaded(code: Code, lam: seq<real>, chan: seq<Column>, b: nat, batch: nat)
    requires LaneCount(batch)
  {
    && ChannelShaped(code, chan)
    && forall c: nat :: c < code.n ==> ResidentColumn(lam, chan[c], 0, c, b, batch)
  }

  lemma LaneStarts(code: Code, plan: Plan, q: Quantizer, chan: seq<seq<Column>>, lam: seq<real>, gm: seq<int>,
                   order: seq<seq<nat>>, keep: bool, b: nat, batch: nat)
    requires PlanOk(code, plan, order) && code.z == Z && LaneCount(batch) && b < |chan|
    requires Loaded(code, lam, chan[b], b, batch)
    ensures LaneAt(code, q, chan, 0, lam, gm, order, true, keep, 0, b, batch)
  {
    var st, cur := Run(code, q, chan[b], 0), Zeros(code.n);
    forall c: nat | c < code.n
      ensures ResidentAt(lam, st, cur, c, b, batch)
    {
      assert ResidentColumn(lam, chan[b][c], 0, c, b, batch);
    }
    forall r: nat | r < |order|
      ensures RowReady(gm, st, order, true, keep, 0, r, b)
    {
      assert OrderedRow(code, plan, order, r);
      OrderBelowN(code, plan, order[r], r);
      forall k: nat | k < |order[r]|
        ensures NoMessage(st, order[r], r, k)
      {
      }
    }
  }

  /** After the last pass: every lane is the plain result, each column in its last coordinate. */
  ghost predicate Finished(code: Code, q: Quantizer, chan: seq<seq<Column>>, k: nat, lam: seq<real>, batch: nat)
    requires ValidCode(code) && LaneCount(batch) && |chan| == batch
  {
    forall b: nat :: b < batch ==> LaneFinished(code, q, chan, k, lam, b, batch)
  }

  ghost predicate LaneFinished(code: Code, q: Quantizer, chan: seq<seq<Column>>, k: nat, lam: seq<real>, b: nat,
                               batch: nat)
    requires ValidCode(code) && LaneCount(batch) && b < |chan|
  {
    ChannelShaped(code, chan[b]) && Resident(code, lam, Run(code, q, chan[b], k), LastCoords(code), b, batch)
  }

  lemma LanesFinish(code: Code, q: Quantizer, chan: seq<seq<Column>>, k: nat, lam: seq<real>, gm: seq<int>,
                    order: seq<seq<nat>>, cold: bool, keep: bool, batch: nat)
    requires ValidCode(code) && LaneCount(batch) && |chan| == batch
    requires LanesAt(code, q, chan, k, lam, gm, order, cold, keep, |code.table|, batch)
    ensures Finished(code, q, chan, k, lam, batch)
  {
    forall b: nat | b < batch
      ensures LaneFinished(code, q, chan, k, lam, b, batch)
    {
      EndCoords(code, cold);
      assert LaneAt(code, q, chan, k, lam, gm, order, cold, keep, |code.table|, b, batch);
    }
  }

  /** All iterations: a cold pass, then steady ones; messages are kept except on the last. */
  method Iterate(ghost code: Code, plan: Plan, ghost order: seq<seq<nat>>, q: Quantizer, degrees: seq<nat>, total: nat,
                 w: Workspace, ghost chan: seq<seq<Column>>, batch: nat, iters: nat)
    requires Launch(code, plan, order) && (batch == 1 || batch == 2) && |chan| == batch && iters >= 1
    requires |degrees| == |order| && (forall r: nat :: r < |order| ==> degrees[r] == |order[r]|)
    requires total == Total(order) && WorkspaceOk(w, code.n, total, batch)
    requires LanesAt(code, q, chan, 0, w.bufs.lam[..], w.gm[..], order, true, 1 < iters, 0, batch)
    modifies Reals(w), Ints(w)
    ensures Finished(code, q, chan, StepsIn(code, iters), w.bufs.lam[..], batch)
  {
    var iter := 0;
    while iter < iters
      invariant iter <= iters
      invariant iter < iters ==>
        LanesAt(code, q, chan, StepsIn(code, iter), w.bufs.lam[..], w.gm[..], order, iter == 0, iter + 1 < iters, 0,
                batch)
      invariant iter == iters ==> Finished(code, q, chan, StepsIn(code, iters), w.bufs.lam[..], batch)
    {
      StepsInIsProduct(code, iter);
      Pass(code, plan, order, q, degrees, total, w, chan, batch, iter == 0, iter + 1 < iters, StepsIn(code, iter));
      ghost var k := StepsIn(code, iter + 1);
      if iter + 1 < iters {
        LanesRestart(code, q, chan, k, w.bufs.lam[..], w.gm[..], order, iter == 0, iter + 2 < iters, batch);
      } else {
        LanesFinish(code, q, chan, k, w.bufs.lam[..], w.gm[..], order, iter == 0, iter + 1 < iters, batch);
      }
      iter := iter + 1;
    }
  }
}
