/**
 Gather and scatter between the resident posteriors and the edge workspace.

 The workspace lists [edge][row][lane][z]: edge k of row rr of the group is item k * rows + rr.
 */
module GatherKernel {
  import opened LayeredDecoder
  import opened GraphPlan
  import opened ShiftKernel

  predicate GroupShape(rows: nat, batch: nat) {
    (rows == 1 || rows == 2) && (batch == 1 || batch == 2)
  }

  function ItemOf(slot: nat, batch: nat): nat {
    if batch == 1 then slot else slot / 2
  }

  function RowOf(item: nat, rows: nat): nat {
    if rows == 1 then 0 else item % 2
  }

  function EdgeOf(item: nat, rows: nat): nat {
    if rows == 1 then item else item / 2
  }

  lemma SlotDecodes(k: nat, rr: nat, b: nat, rows: nat, batch: nat)
    requires GroupShape(rows, batch) && rr < rows && b < batch
    ensures ItemOf(Slot(Slot(k, rr, rows), b, batch), batch) == Slot(k, rr, rows)
    ensures RowOf(Slot(k, rr, rows), rows) == rr && EdgeOf(Slot(k, rr, rows), rows) == k
  {
  }

  /** A plan word whose column lies in the posterior buffer and whose rotation is a residue. */
  predicate WordFits(len: nat, word: nat, batch: nat)
    requires LaneCount(batch)
  {
    ShiftOf(word) < Z && Fits(len, ColumnOf(word), batch)
  }

  /** The lanes of an item hold the word's column, rotated by the word's shift. */
  ghost predicate EdgeGathered(gath: seq<real>, lam: seq<real>, word: nat, item: nat, batch: nat)
    requires LaneCount(batch)
  {
    && WordFits(|lam|, word, batch) && Fits(|gath|, item, batch)
    && forall b: nat, i: nat :: b < batch && i < Z ==>
         At(gath, Slot(item, b, batch), i) == At(lam, Slot(ColumnOf(word), b, batch), BitOf(i, ShiftOf(word), Z))
  }

  ghost predicate EdgesGathered(gath: seq<real>, lam: seq<real>, meta: seq<nat>, pack: nat, rr: nat,
                                rows: nat, batch: nat, lo: nat, hi: nat)
    requires GroupShape(rows, batch) && pack + hi <= |meta|
  {
    forall k :: lo <= k < hi ==> EdgeGathered(gath, lam, meta[pack + k], Slot(k, rr, rows), batch)
  }

  /** Only edges lo..hi of row rr have been written. */
  ghost predicate OnlyEdges(now: seq<real>, was: seq<real>, rr: nat, rows: nat, batch: nat, lo: nat, hi: nat) {
    && |now| == |was|
    && forall slot: nat, i: nat :: i < Z && slot * Z + Z <= |was|
         && !(RowOf(ItemOf(slot, batch), rows) == rr && lo <= EdgeOf(ItemOf(slot, batch), rows) < hi)
         ==> At(now, slot, i) == At(was, slot, i)
  }

  lemma GatheredKept(now: seq<real>, was: seq<real>, lam: seq<real>, word: nat, k: nat, rr: nat, rr': nat,
                     rows: nat, batch: nat, lo: nat, hi: nat)
    requires GroupShape(rows, batch) && rr < rows && rr' < rows
    requires OnlyEdges(now, was, rr, rows, batch, lo, hi) && (rr' != rr || !(lo <= k < hi))
    requires EdgeGathered(was, lam, word, Slot(k, rr', rows), batch)
    ensures EdgeGathered(now, lam, word, Slot(k, rr', rows), batch)
  {
    forall b: nat, i: nat | b < batch && i < Z
      ensures At(now, Slot(Slot(k, rr', rows), b, batch), i) == At(was, Slot(Slot(k, rr', rows), b, batch), i)
    {
      SlotDecodes(k, rr', b, rows, batch);
    }
  }

  lemma OneItemIsOneEdge(now: seq<real>, was: seq<real>, k: nat, rr: nat, rows: nat, batch: nat)
    requires GroupShape(rows, batch) && rr < rows
    requires OthersKept(now, was, Slot(k, rr, rows), batch)
    ensures OnlyEdges(now, was, rr, rows, batch, k, k + 1)
  {
  }

  /** Rotate one edge's column into its workspace item with the routine of its shift class. */
  method GatherEdge(gath: array<real>, lam: array<real>, word: nat, cls: ShiftClass, k: nat, rr: nat, rows: nat,
                    batch: nat)
    requires gath != lam && GroupShape(rows, batch) && rr < rows
    requires WordOfClass(lam.Length, word, batch, cls) && Fits(gath.Length, Slot(k, rr, rows), batch)
    modifies gath
    ensures EdgeGathered(gath[..], lam[..], word, Slot(k, rr, rows), batch)
    ensures OnlyEdges(gath[..], old(gath[..]), rr, rows, batch, k, k + 1)
  {
    match cls {
      case ZeroShift => ShiftZero(gath, Slot(k, rr, rows), lam, ColumnOf(word), batch);
      case AlignedShift => ShiftAligned(gath, Slot(k, rr, rows), lam, ColumnOf(word), ShiftOf(word), batch);
      case VectorShift => ShiftVector(gath, Slot(k, rr, rows), lam, ColumnOf(word), ShiftOf(word), batch);
    }
    OneItemIsOneEdge(gath[..], old(gath[..]), k, rr, rows, batch);
  }

  /** Every word of the range fits, and is of the class its routine expects. */
  predicate RangeOfClass(lamLen: nat, gathLen: nat, meta: seq<nat>, pack: nat, rr: nat, rows: nat, batch: nat,
                               cls: ShiftClass, lo: nat, hi: nat)
    requires GroupShape(rows, batch)
  {
    && pack + hi <= |meta|
    && forall k :: lo <= k < hi ==> EdgeOfClass(lamLen, gathLen, meta, pack, k, rr, rows, batch, cls)
  }

  predicate EdgeOfClass(lamLen: nat, gathLen: nat, meta: seq<nat>, pack: nat, k: nat, rr: nat, rows: nat, batch: nat,
                        cls: ShiftClass)
    requires GroupShape(rows, batch) && pack + k < |meta|
  {
    WordOfClass(lamLen, meta[pack + k], batch, cls) && Fits(gathLen, Slot(k, rr, rows), batch)
  }

  predicate WordOfClass(lamLen: nat, word: nat, batch: nat, cls: ShiftClass)
    requires LaneCount(batch)
  {
    WordFits(lamLen, word, batch) && (cls == VectorShift || ShiftClassOf(ShiftOf(word)) == cls)
  }

  /** One class's run of edges: no per-edge dispatch remains. */
  method GatherRange(gath: array<real>, lam: array<real>, meta: seq<nat>, pack: nat, cls: ShiftClass,
                     lo: nat, hi: nat, rr: nat, rows: nat, batch: nat)
    requires gath != lam && GroupShape(rows, batch) && rr < rows && lo <= hi
    requires RangeOfClass(lam.Length, gath.Length, meta, pack, rr, rows, batch, cls, lo, hi)
    modifies gath
    ensures EdgesGathered(gath[..], lam[..], meta, pack, rr, rows, batch, lo, hi)
    ensures OnlyEdges(gath[..], old(gath[..]), rr, rows, batch, lo, hi)
  {
    for kk := lo to hi
      invariant EdgesGathered(gath[..], lam[..], meta, pack, rr, rows, batch, lo, kk)
      invariant OnlyEdges(gath[..], old(gath[..]), rr, rows, batch, lo, kk)
    {
      ghost var was := gath[..];
      assert EdgeOfClass(lam.Length, gath.Length, meta, pack, kk, rr, rows, batch, cls);
      GatherEdge(gath, lam, meta[pack + kk], cls, kk, rr, rows, batch);
      EdgesKept(gath[..], was, lam[..], meta, pack, rr, rr, rows, batch, kk, kk + 1, lo, kk);
    }
  }

  lemma EdgesKept(now: seq<real>, was: seq<real>, lam: seq<real>, meta: seq<nat>, pack: nat, rr: nat, rr': nat,
                  rows: nat, batch: nat, lo: nat, hi: nat, lo': nat, hi': nat)
    requires GroupShape(rows, batch) && rr < rows && rr' < rows && pack + hi' <= |meta|
    requires OnlyEdges(now, was, rr, rows, batch, lo, hi) && (rr' != rr || hi' <= lo || hi <= lo')
    requires EdgesGathered(was, lam, meta, pack, rr', rows, batch, lo', hi')
    ensures EdgesGathered(now, lam, meta, pack, rr', rows, batch, lo', hi')
  {
    forall k | lo' <= k < hi'
      ensures EdgeGathered(now, lam, meta[pack + k], Slot(k, rr', rows), batch)
    {
      GatheredKept(now, was, lam, meta[pack + k], k, rr, rr', rows, batch, lo, hi);
    }
  }

  /** Steady state: the row's edges come already partitioned, three runs with fixed routines. */
  method GatherRowDispatch(gath: array<real>, lam: array<real>, meta: seq<nat>, split: nat, pack: nat, deg: nat,
                           rr: nat, rows: nat, batch: nat)
    requires gath != lam && GroupShape(rows, batch) && rr < rows
    requires split % 0x100 <= split / 0x100 <= deg
    requires RangeOfClass(lam.Length, gath.Length, meta, pack, rr, rows, batch, ZeroShift, 0, split % 0x100)
    requires RangeOfClass(lam.Length, gath.Length, meta, pack, rr, rows, batch, AlignedShift, split % 0x100,
                          split / 0x100)
    requires RangeOfClass(lam.Length, gath.Length, meta, pack, rr, rows, batch, VectorShift, split / 0x100, deg)
    modifies gath
    ensures EdgesGathered(gath[..], lam[..], meta, pack, rr, rows, batch, 0, deg)
    ensures OnlyEdges(gath[..], old(gath[..]), rr, rows, batch, 0, deg)
  {
    var zeroEnd, alignedEnd := split % 0x100, split / 0x100;
    GatherRange(gath, lam, meta, pack, ZeroShift, 0, zeroEnd, rr, rows, batch);
    ghost var was := gath[..];
    GatherRange(gath, lam, meta, pack, AlignedShift, zeroEnd, alignedEnd, rr, rows, batch);
    EdgesKept(gath[..], was, lam[..], meta, pack, rr, rr, rows, batch, zeroEnd, alignedEnd, 0, zeroEnd);
    was := gath[..];
    GatherRange(gath, lam, meta, pack, VectorShift, alignedEnd, deg, rr, rows, batch);
    EdgesKept(gath[..], was, lam[..], meta, pack, rr, rr, rows, batch, alignedEnd, deg, 0, alignedEnd);
  }

  /** First iteration: the order is the steady plan's, so the class is looked up edge by edge. */
  method GatherRowDynamic(gath: array<real>, lam: array<real>, meta: seq<nat>, pack: nat, deg: nat,
                          rr: nat, rows: nat, batch: nat)
    requires gath != lam && GroupShape(rows, batch) && rr < rows
    requires RangeOfClass(lam.Length, gath.Length, meta, pack, rr, rows, batch, VectorShift, 0, deg)
    modifies gath
    ensures EdgesGathered(gath[..], lam[..], meta, pack, rr, rows, batch, 0, deg)
    ensures OnlyEdges(gath[..], old(gath[..]), rr, rows, batch, 0, deg)
  {
    for kk := 0 to deg
      invariant EdgesGathered(gath[..], lam[..], meta, pack, rr, rows, batch, 0, kk)
      invariant OnlyEdges(gath[..], old(gath[..]), rr, rows, batch, 0, kk)
    {
      ghost var was := gath[..];
      assert EdgeOfClass(lam.Length, gath.Length, meta, pack, kk, rr, rows, batch, VectorShift);
      ShiftDynamic(gath, Slot(kk, rr, rows), lam, ColumnOf(meta[pack + kk]), ShiftOf(meta[pack + kk]), batch);
      OneItemIsOneEdge(gath[..], was, kk, rr, rows, batch);
      EdgesKept(gath[..], was, lam[..], meta, pack, rr, rr, rows, batch, kk, kk + 1, 0, kk);
    }
  }

  // ---------- gathering a row group by the plan ----------

  /** The buffers are large enough for the code's columns and the group's edges. */
  predicate Roomy(n: nat, deg: nat, lamLen: nat, workLen: nat, rows: nat, batch: nat)
    requires GroupShape(rows, batch)
  {
    Slot(n, 0, batch) * Z <= lamLen && Slot(Slot(deg, 0, rows), 0, batch) * Z <= workLen
  }

  lemma ItemFits(n: nat, deg: nat, lamLen: nat, workLen: nat, k: nat, rr: nat, rows: nat, batch: nat)
    requires GroupShape(rows, batch) && rr < rows && k < deg && Roomy(n, deg, lamLen, workLen, rows, batch)
    ensures Fits(workLen, Slot(k, rr, rows), batch)
    ensures forall c: nat :: c < n ==> Fits(lamLen, c, batch)
  {
  }

  lemma ColdWordsFit(code: Code, plan: Plan, cols: seq<nat>, r: nat, lamLen: nat, workLen: nat, rr: nat, rows: nat,
                     batch: nat)
    requires code.z == Z && GroupShape(rows, batch) && rr < rows && Roomy(code.n, |cols|, lamLen, workLen, rows, batch)
    requires RowNamed(code, plan, cols, r) && r * MAX_DEG + |cols| <= |plan.first|
    ensures RangeOfClass(lamLen, workLen, plan.first, r * MAX_DEG, rr, rows, batch, VectorShift, 0, |cols|)
  {
    var pack := r * MAX_DEG;
    forall k: nat | k < |cols|
      ensures EdgeOfClass(lamLen, workLen, plan.first, pack, k, rr, rows, batch, VectorShift)
    {
      assert EntryNamed(code, plan, cols, true, r, k);
      ItemFits(code.n, |cols|, lamLen, workLen, k, rr, rows, batch);
    }
  }

  /** The three runs of the steady row match the routines that will be used on them. */
  lemma SteadyWordsFit(code: Code, plan: Plan, cols: seq<nat>, r: nat, lamLen: nat, workLen: nat,
                       rr: nat, rows: nat, batch: nat, cls: ShiftClass, lo: nat, hi: nat)
    requires code.z == Z && GroupShape(rows, batch) && rr < rows && Roomy(code.n, |cols|, lamLen, workLen, rows, batch)
    requires RowNamed(code, plan, cols, r) && RowClassed(plan, cols, r) && r < |plan.split|
    requires hi <= |cols| && r * MAX_DEG + |cols| <= |plan.steady|
    requires forall k: nat :: lo <= k < hi ==> ClassAt(plan.split[r], k) == cls
    ensures RangeOfClass(lamLen, workLen, plan.steady, r * MAX_DEG, rr, rows, batch, cls, lo, hi)
  {
    var pack := r * MAX_DEG;
    forall k: nat | lo <= k < hi
      ensures EdgeOfClass(lamLen, workLen, plan.steady, pack, k, rr, rows, batch, cls)
    {
      assert EntryNamed(code, plan, cols, false, r, k);
      assert EntryClassed(plan, r, k);
      ItemFits(code.n, |cols|, lamLen, workLen, k, rr, rows, batch);
    }
  }

  /** Gather row r of the code as row rr of the group. */
  method GatherRow(ghost code: Code, plan: Plan, ghost cols: seq<nat>, cold: bool, gath: array<real>, lam: array<real>,
                   r: nat, deg: nat, rr: nat, rows: nat, batch: nat)
    requires ValidCode(code) && code.z == Z && r < |code.table| == |plan.split| && RowPlanned(code, plan, cols, r)
    requires GroupShape(rows, batch) && rr < rows && gath != lam && deg == |cols|
    requires Roomy(code.n, deg, lam.Length, gath.Length, rows, batch)
    modifies gath
    ensures EdgesGathered(gath[..], lam[..], TableOf(plan, cold), r * MAX_DEG, rr, rows, batch, 0, deg)
    ensures OnlyEdges(gath[..], old(gath[..]), rr, rows, batch, 0, deg)
  {
    if cold {
      ColdWordsFit(code, plan, cols, r, lam.Length, gath.Length, rr, rows, batch);
      GatherRowDynamic(gath, lam, plan.first, r * MAX_DEG, deg, rr, rows, batch);
    } else {
      GatherSteadyRow(code, plan, cols, gath, lam, r, deg, rr, rows, batch);
    }
  }

  method GatherSteadyRow(ghost code: Code, plan: Plan, ghost cols: seq<nat>, gath: array<real>, lam: array<real>,
                         r: nat, deg: nat, rr: nat, rows: nat, batch: nat)
    requires ValidCode(code) && code.z == Z && r < |code.table| == |plan.split|
    requires RowShaped(code, plan, cols, r) && RowNamed(code, plan, cols, r) && RowClassed(plan, cols, r)
    requires GroupShape(rows, batch) && rr < rows && gath != lam && deg == |cols|
    requires Roomy(code.n, deg, lam.Length, gath.Length, rows, batch)
    modifies gath
    ensures EdgesGathered(gath[..], lam[..], plan.steady, r * MAX_DEG, rr, rows, batch, 0, deg)
    ensures OnlyEdges(gath[..], old(gath[..]), rr, rows, batch, 0, deg)
  {
    ghost var zeroEnd, alignedEnd := plan.split[r] % 0x100, plan.split[r] / 0x100;
    SteadyWordsFit(code, plan, cols, r, lam.Length, gath.Length, rr, rows, batch, ZeroShift, 0, zeroEnd);
    SteadyWordsFit(code, plan, cols, r, lam.Length, gath.Length, rr, rows, batch, AlignedShift, zeroEnd, alignedEnd);
    SteadyWordsFit(code, plan, cols, r, lam.Length, gath.Length, rr, rows, batch, VectorShift, alignedEnd, deg);
    GatherRowDispatch(gath, lam, plan.steady, plan.split[r], r * MAX_DEG, deg, rr, rows, batch);
  }

  /** A group of one row, or of two rows of equal degree. */
  ghost predicate GroupOf(code: Code, plan: Plan, order: seq<seq<nat>>, br: nat, deg: nat, rows: nat) {
    && PlanOk(code, plan, order) && code.z == Z && br + rows <= |order|
    && 1 <= rows <= 2 && |order[br]| == deg && |order[br + rows - 1]| == deg
  }

  ghost predicate GroupRowGathered(plan: Plan, cold: bool, gath: seq<real>, lam: seq<real>,
                                   br: nat, deg: nat, rr: nat, rows: nat, batch: nat)
    requires GroupShape(rows, batch)
  {
    && (br + rr) * MAX_DEG + deg <= |TableOf(plan, cold)|
    && EdgesGathered(gath, lam, TableOf(plan, cold), (br + rr) * MAX_DEG, rr, rows, batch, 0, deg)
  }

  /** Gather all rows of the group from the resident coordinates, before any of them is written back. */
  method GatherGroup(ghost code: Code, plan: Plan, ghost order: seq<seq<nat>>, cold: bool,
                     gath: array<real>, lam: array<real>, br: nat, deg: nat, rows: nat, batch: nat)
    requires GroupOf(code, plan, order, br, deg, rows) && GroupShape(rows, batch) && gath != lam
    requires Roomy(code.n, deg, lam.Length, gath.Length, rows, batch)
    modifies gath
    ensures forall rr: nat :: rr < rows ==> GroupRowGathered(plan, cold, gath[..], lam[..], br, deg, rr, rows, batch)
  {
    for rr := 0 to rows
      invariant forall r: nat :: r < rr ==> GroupRowGathered(plan, cold, gath[..], lam[..], br, deg, r, rows, batch)
    {
      ghost var was := gath[..];
      assert OrderedRow(code, plan, order, br + rr);
      GatherRow(code, plan, order[br + rr], cold, gath, lam, br + rr, deg, rr, rows, batch);
      GroupRowsKept(plan, cold, gath[..], was, lam[..], br, deg, rr, rows, batch);
    }
  }

  lemma GroupRowsKept(plan: Plan, cold: bool, now: seq<real>, was: seq<real>, lam: seq<real>,
                      br: nat, deg: nat, rr: nat, rows: nat, batch: nat)
    requires GroupShape(rows, batch) && rr < rows && OnlyEdges(now, was, rr, rows, batch, 0, deg)
    requires forall r: nat :: r < rr ==> GroupRowGathered(plan, cold, was, lam, br, deg, r, rows, batch)
    ensures forall r: nat :: r < rr ==> GroupRowGathered(plan, cold, now, lam, br, deg, r, rows, batch)
  {
    forall r: nat | r < rr
      ensures GroupRowGathered(plan, cold, now, lam, br, deg, r, rows, batch)
    {
      assert GroupRowGathered(plan, cold, was, lam, br, deg, r, rows, batch);
      EdgesKept(now, was, lam, TableOf(plan, cold), (br + r) * MAX_DEG, rr, r, rows, batch, 0, deg, 0, deg);
    }
  }

  // ---------- scatter ----------

  /** Column c holds, lane by lane, what workspace item holds. */
  ghost predicate ColumnHolds(lam: seq<real>, c: nat, work: seq<real>, item: nat, batch: nat)
    requires LaneCount(batch)
  {
    && Fits(|lam|, c, batch) && Fits(|work|, item, batch)
    && forall b: nat, i: nat :: b < batch && i < Z ==>
         At(lam, Slot(c, b, batch), i) == At(work, Slot(item, b, batch), i)
  }

  ghost predicate ColumnKept(now: seq<real>, was: seq<real>, c: nat, batch: nat)
    requires LaneCount(batch)
  {
    && |now| == |was|
    && (Fits(|was|, c, batch) ==>
          forall b: nat, i: nat :: b < batch && i < Z ==>
            At(now, Slot(c, b, batch), i) == At(was, Slot(c, b, batch), i))
  }

  lemma OtherColumnKept(now: seq<real>, was: seq<real>, w: nat, c: nat, batch: nat)
    requires LaneCount(batch) && OthersKept(now, was, w, batch) && c != w
    ensures ColumnKept(now, was, c, batch)
  {
  }

  lemma KeptColumnHolds(now: seq<real>, was: seq<real>, c: nat, work: seq<real>, item: nat, batch: nat)
    requires LaneCount(batch) && ColumnKept(now, was, c, batch) && ColumnHolds(was, c, work, item, batch)
    ensures ColumnHolds(now, c, work, item, batch)
  {
  }

  lemma KeptTwice(now: seq<real>, mid: seq<real>, was: seq<real>, c: nat, batch: nat)
    requires LaneCount(batch) && ColumnKept(now, mid, c, batch) && ColumnKept(mid, was, c, batch)
    ensures ColumnKept(now, was, c, batch)
  {
  }

  /** The first n columns of a row's order hold their workspace items. */
  ghost predicate RowHolds(lam: seq<real>, cols: seq<nat>, work: seq<real>, n: nat, rr: nat, rows: nat, batch: nat)
    requires GroupShape(rows, batch) && n <= |cols|
  {
    forall k: nat :: k < n ==> EdgeHolds(lam, cols, work, k, rr, rows, batch)
  }

  ghost predicate EdgeHolds(lam: seq<real>, cols: seq<nat>, work: seq<real>, k: nat, rr: nat, rows: nat, batch: nat)
    requires GroupShape(rows, batch) && k < |cols|
  {
    ColumnHolds(lam, cols[k], work, Slot(k, rr, rows), batch)
  }

  ghost predicate OthersHold(now: seq<real>, was: seq<real>, cols: seq<nat>, batch: nat)
    requires LaneCount(batch)
  {
    forall c: nat :: c !in cols ==> ColumnKept(now, was, c, batch)
  }

  /** Make the check coordinate of row rr resident: copy every edge over its column. */
  method ScatterRow(ghost cols: seq<nat>, ghost n: nat, lam: array<real>, ext: array<real>, meta: seq<nat>, pack: nat,
                    deg: nat, rr: nat, rows: nat, batch: nat)
    requires lam != ext && GroupShape(rows, batch) && rr < rows && pack + deg <= |meta|
    requires |cols| == deg && AllDistinct(cols) && ColumnsOf(cols, meta, pack, n)
    requires Slot(n, 0, batch) * Z <= lam.Length && Slot(Slot(deg, 0, rows), 0, batch) * Z <= ext.Length
    modifies lam
    ensures RowHolds(lam[..], cols, ext[..], deg, rr, rows, batch)
    ensures OthersHold(lam[..], old(lam[..]), cols, batch)
  {
    for kk := 0 to deg
      invariant RowHolds(lam[..], cols, ext[..], kk, rr, rows, batch)
      invariant OthersHold(lam[..], old(lam[..]), cols, batch)
    {
      ghost var was := lam[..];
      assert ColumnNamed(cols, meta, pack, n, kk);
      ShiftZero(lam, ColumnOf(meta[pack + kk]), ext, Slot(kk, rr, rows), batch);
      ScatterStep(lam[..], was, old(lam[..]), cols, ext[..], kk, rr, rows, batch);
    }
  }

  ghost predicate ColumnNamed(cols: seq<nat>, meta: seq<nat>, pack: nat, n: nat, k: nat)
    requires k < |cols| && pack + |cols| <= |meta|
  {
    ColumnOf(meta[pack + k]) == cols[k] < n
  }

  ghost predicate ColumnsOf(cols: seq<nat>, meta: seq<nat>, pack: nat, n: nat)
    requires pack + |cols| <= |meta|
  {
    forall k: nat :: k < |cols| ==> ColumnNamed(cols, meta, pack, n, k)
  }

  lemma ScatterStep(now: seq<real>, mid: seq<real>, was: seq<real>, cols: seq<nat>, work: seq<real>, kk: nat, rr: nat,
                    rows: nat, batch: nat)
    requires GroupShape(rows, batch) && rr < rows && kk < |cols| && AllDistinct(cols)
    requires Fits(|mid|, cols[kk], batch) && Fits(|work|, Slot(kk, rr, rows), batch)
    requires Rotated(now, mid, work, cols[kk], Slot(kk, rr, rows), 0, batch)
    requires RowHolds(mid, cols, work, kk, rr, rows, batch) && OthersHold(mid, was, cols, batch)
    ensures RowHolds(now, cols, work, kk + 1, rr, rows, batch) && OthersHold(now, was, cols, batch)
  {
    forall k: nat | k < kk + 1
      ensures EdgeHolds(now, cols, work, k, rr, rows, batch)
    {
      if k < kk {
        assert EdgeHolds(mid, cols, work, k, rr, rows, batch);
        OtherColumnKept(now, mid, cols[kk], cols[k], batch);
        KeptColumnHolds(now, mid, cols[k], work, Slot(k, rr, rows), batch);
      } else {
        UnrotatedHolds(now, mid, work, cols[kk], Slot(kk, rr, rows), batch);
      }
    }
    forall c: nat | c !in cols
      ensures ColumnKept(now, was, c, batch)
    {
      OtherColumnKept(now, mid, cols[kk], c, batch);
      KeptTwice(now, mid, was, c, batch);
    }
  }

  lemma UnrotatedHolds(now: seq<real>, mid: seq<real>, work: seq<real>, c: nat, item: nat, batch: nat)
    requires LaneCount(batch) && Fits(|mid|, c, batch) && Fits(|work|, item, batch)
    requires Rotated(now, mid, work, c, item, 0, batch)
    ensures ColumnHolds(now, c, work, item, batch)
  {
    forall b: nat, i: nat | b < batch && i < Z
      ensures At(now, Slot(c, b, batch), i) == At(work, Slot(item, b, batch), i)
    {
      assert BitOf(i, 0, Z) == i;
    }
  }

  lemma RowNamesColumns(code: Code, plan: Plan, cols: seq<nat>, r: nat)
    requires RowNamed(code, plan, cols, r) && r * MAX_DEG + |cols| <= |plan.steady|
    ensures ColumnsOf(cols, plan.steady, r * MAX_DEG, code.n)
  {
    var pack := r * MAX_DEG;
    forall k: nat | k < |cols|
      ensures ColumnNamed(cols, plan.steady, pack, code.n, k)
    {
      assert EntryNamed(code, plan, cols, false, r, k);
    }
  }

  /** Write row rr of the group back over its columns. */
  method ScatterPlanRow(ghost code: Code, plan: Plan, ghost cols: seq<nat>, lam: array<real>, ext: array<real>,
                        r: nat, deg: nat, rr: nat, rows: nat, batch: nat)
    requires ValidCode(code) && r < |code.table| == |plan.split|
    requires RowShaped(code, plan, cols, r) && RowNamed(code, plan, cols, r)
    requires GroupShape(rows, batch) && rr < rows && lam != ext && deg == |cols|
    requires Roomy(code.n, deg, lam.Length, ext.Length, rows, batch)
    modifies lam
    ensures RowHolds(lam[..], cols, ext[..], deg, rr, rows, batch)
    ensures OthersHold(lam[..], old(lam[..]), cols, batch)
  {
    RowNamesColumns(code, plan, cols, r);
    ScatterRow(cols, code.n, lam, ext, plan.steady, r * MAX_DEG, deg, rr, rows, batch);
  }

  /** No column belongs to both rows. */
  ghost predicate NoCommon(a: seq<nat>, b: seq<nat>) {
    forall c :: c in a ==> c !in b
  }

  ghost predicate GroupRowHolds(lam: seq<real>, order: seq<seq<nat>>, work: seq<real>, br: nat, rr: nat, rows: nat,
                                batch: nat)
    requires GroupShape(rows, batch) && br + rr < |order|
  {
    RowHolds(lam, order[br + rr], work, |order[br + rr]|, rr, rows, batch)
  }

  /** Columns outside the group's rows keep their contents. */
  ghost predicate OutsideGroupKept(now: seq<real>, was: seq<real>, order: seq<seq<nat>>, br: nat, rows: nat, batch: nat)
    requires GroupShape(rows, batch) && br + rows <= |order|
  {
    forall c: nat :: c !in order[br] && c !in order[br + rows - 1] ==> ColumnKept(now, was, c, batch)
  }

  /** Scatter the rows of the group; a fused pair has no common column, so the writes cannot alias. */
  method ScatterGroup(ghost code: Code, plan: Plan, ghost order: seq<seq<nat>>, lam: array<real>, ext: array<real>,
                      br: nat, deg: nat, rows: nat, batch: nat)
    requires GroupOf(code, plan, order, br, deg, rows) && GroupShape(rows, batch) && lam != ext
    requires Roomy(code.n, deg, lam.Length, ext.Length, rows, batch)
    requires rows == 2 ==> NoCommon(order[br], order[br + 1])
    modifies lam
    ensures forall rr: nat :: rr < rows ==> GroupRowHolds(lam[..], order, ext[..], br, rr, rows, batch)
    ensures OutsideGroupKept(lam[..], old(lam[..]), order, br, rows, batch)
  {
    assert OrderedRow(code, plan, order, br);
    ScatterPlanRow(code, plan, order[br], lam, ext, br, deg, 0, rows, batch);
    assert GroupRowHolds(lam[..], order, ext[..], br, 0, rows, batch);
    if rows == 2 {
      ghost var mid := lam[..];
      assert OrderedRow(code, plan, order, br + 1);
      ScatterPlanRow(code, plan, order[br + 1], lam, ext, br + 1, deg, 1, rows, batch);
      SecondRowKeepsFirst(lam[..], mid, old(lam[..]), ext[..], order, br, batch);
      assert GroupRowHolds(lam[..], order, ext[..], br, 1, rows, batch);
    }
  }

  lemma SecondRowKeepsFirst(now: seq<real>, mid: seq<real>, was: seq<real>, work: seq<real>, order: seq<seq<nat>>,
                            br: nat, batch: nat)
    requires GroupShape(2, batch) && br + 1 < |order| && NoCommon(order[br], order[br + 1])
    requires GroupRowHolds(mid, order, work, br, 0, 2, batch)
    requires OthersHold(mid, was, order[br], batch) && OthersHold(now, mid, order[br + 1], batch)
    ensures GroupRowHolds(now, order, work, br, 0, 2, batch)
    ensures OutsideGroupKept(now, was, order, br, 2, batch)
  {
    var cols := order[br];
    forall k: nat | k < |cols|
      ensures EdgeHolds(now, cols, work, k, 0, 2, batch)
    {
      assert EdgeHolds(mid, cols, work, k, 0, 2, batch);
      assert cols[k] in cols;
      KeptColumnHolds(now, mid, cols[k], work, Slot(k, 0, 2), batch);
    }
    forall c: nat | c !in order[br] && c !in order[br + 1]
      ensures ColumnKept(now, was, c, batch)
    {
      KeptTwice(now, mid, was, c, batch);
    }
  }
}
