/** A row group of the kernel refines one or two row steps of the plain decoder, for every lane. */
module GroupRefinement {
  import opened LayeredDecoder
  import opened GraphPlan
  import opened ShiftKernel
  import opened GatherKernel
  import opened MessageKernel
  import opened RowKernel
  import opened RowRefinement

  /** Lane b of the resident posteriors is the plain state, every column in its current coordinate. */
  ghost predicate Resident(code: Code, lam: seq<real>, st: State, cur: seq<nat>, b: nat, batch: nat)
    requires LaneCount(batch)
  {
    && |cur| == |st.lam| == code.n
    && forall c: nat :: c < code.n ==> ResidentAt(lam, st, cur, c, b, batch)
  }

  ghost predicate ResidentAt(lam: seq<real>, st: State, cur: seq<nat>, c: nat, b: nat, batch: nat)
    requires LaneCount(batch) && c < |cur| && c < |st.lam|
  {
    ResidentColumn(lam, st.lam[c], cur[c], c, b, batch)
  }

  lemma ResidentGivesInput(code: Code, lam: seq<real>, st: State, cur: seq<nat>, cols: seq<nat>, b: nat, batch: nat)
    requires LaneCount(batch) && Resident(code, lam, st, cur, b, batch)
    requires forall k: nat :: k < |cols| ==> cols[k] < code.n
    ensures RowInput(code, st, cols, cur, lam, b, batch)
  {
    forall k: nat | k < |cols|
      ensures ResidentColumn(lam, st.lam[cols[k]], cur[cols[k]], cols[k], b, batch)
    {
      assert ResidentAt(lam, st, cur, cols[k], b, batch);
    }
  }

  lemma StepLeavesOthers(code: Code, q: Quantizer, st: State, r: nat, c: nat)
    requires ValidCode(code) && Shaped(code, st) && r < |code.table| && c < code.n && code.table[r][c] < 0
    ensures RowStep(code, q, st, r).lam[c] == st.lam[c]
  {
  }

  lemma StepLeavesRows(code: Code, q: Quantizer, st: State, r: nat, r': nat)
    requires ValidCode(code) && Shaped(code, st) && r < |code.table| && r' < |code.table| && r' != r
    ensures RowStep(code, q, st, r).msg[r'] == st.msg[r']
  {
  }

  lemma CoordsStep(code: Code, start: seq<nat>, r: nat, c: nat)
    requires ValidCode(code) && |start| == code.n && r < |code.table| && c < code.n
    ensures CoordsAfter(code, start, r + 1)[c]
         == if code.table[r][c] >= 0 then code.table[r][c] else CoordsAfter(code, start, r)[c]
  {
  }

  /** All edges of one lane of one row. */
  ghost predicate LaneDone(code: Code, q: Quantizer, st: State, cols: seq<nat>, keep: bool, t: Trace, l: Lane,
                           rows: nat, batch: nat)
    requires ValidCode(code) && code.z == Z && Shaped(code, st) && l.r < |code.table| && GroupShape(rows, batch)
  {
    forall k: nat, i: nat :: k < |cols| && i < Z ==> EdgeComputed(code, q, st, cols[k], keep, t, l, rows, batch, k, i)
  }

  lemma LaneCompletes(code: Code, plan: Plan, q: Quantizer, st: State, cols: seq<nat>, cold: bool, keep: bool,
                      lam: seq<real>, gm: seq<int>, t: Trace, br: nat, deg: nat, off: nat, total: nat, l: Lane,
                      rows: nat, batch: nat)
    requires GroupShape(rows, batch)
    requires LaneGiven(code, plan, st, cols, cold, lam, gm, br, deg, off, total, l, rows, batch)
    requires 2 <= deg && Computed(t, plan, q, lam, gm, cold, keep, br, deg, off, total, rows, batch)
    requires keep ==> Slot(deg, 0, Lanes(rows, batch)) * Z <= |t.sent|
    ensures LaneDone(code, q, st, cols, keep, t, l, rows, batch)
  {
    forall k: nat, i: nat | k < |cols| && i < Z
      ensures EdgeComputed(code, q, st, cols[k], keep, t, l, rows, batch, k, i)
    {
      LaneComputes(code, plan, q, st, cols, cold, keep, lam, gm, t, br, deg, off, total, l, rows, batch, k, i);
    }
  }

  /** One value after the scatter is the stepped posterior it stands for. */
  lemma ScatteredValue(code: Code, q: Quantizer, st: State, c: nat, keep: bool, t: Trace, lam: seq<real>,
                       l: Lane, rows: nat, batch: nat, k: nat, i: nat, col: Column)
    requires ValidCode(code) && code.z == Z && Shaped(code, st) && l.r < |code.table| && GroupShape(rows, batch)
    requires l.rr < rows && l.b < batch && i < Z && EdgeComputed(code, q, st, c, keep, t, l, rows, batch, k, i)
    requires ColumnHolds(lam, c, t.post, Slot(k, l.rr, rows), batch) && col == RowStep(code, q, st, l.r).lam[c]
    ensures |col| == Z && At(lam, Slot(c, l.b, batch), i) == col[BitOf(i, code.table[l.r][c], Z)]
  {
    StepPosterior(code, q, st, l.r, c, i);
  }

  /** After the scatter, the columns of the row hold the stepped posteriors in the row's coordinate. */
  lemma RowBecomesResident(code: Code, q: Quantizer, st: State, cols: seq<nat>, keep: bool, t: Trace, lam: seq<real>,
                           l: Lane, rows: nat, batch: nat, k: nat, col: Column)
    requires ValidCode(code) && code.z == Z && Shaped(code, st) && l.r < |code.table|
    requires GroupShape(rows, batch) && l.rr < rows && l.b < batch && k < |cols|
    requires LaneDone(code, q, st, cols, keep, t, l, rows, batch)
    requires RowHolds(lam, cols, t.post, |cols|, l.rr, rows, batch)
    requires cols[k] < code.n && col == RowStep(code, q, st, l.r).lam[cols[k]]
    ensures 0 <= code.table[l.r][cols[k]] < Z
    ensures ResidentColumn(lam, col, code.table[l.r][cols[k]], cols[k], l.b, batch)
  {
    var c := cols[k];
    assert EdgeComputed(code, q, st, cols[k], keep, t, l, rows, batch, k, 0);
    assert EdgeHolds(lam, cols, t.post, k, l.rr, rows, batch);
    forall i: nat | i < Z
      ensures At(lam, Slot(c, l.b, batch), i) == col[BitOf(i, code.table[l.r][c], Z)]
    {
      assert EdgeComputed(code, q, st, cols[k], keep, t, l, rows, batch, k, i);
      ScatteredValue(code, q, st, c, keep, t, lam, l, rows, batch, k, i, col);
    }
  }

  lemma KeptColumnStaysResident(lam0: seq<real>, lam: seq<real>, col: Column, coord: nat, c: nat, b: nat, batch: nat)
    requires LaneCount(batch) && b < batch && Fits(|lam0|, c, batch)
    requires ColumnKept(lam, lam0, c, batch) && ResidentColumn(lam0, col, coord, c, b, batch)
    ensures ResidentColumn(lam, col, coord, c, b, batch)
  {
  }

  // ---------- messages ----------

  /** Edges of the first r rows. */
  function EdgesBefore(order: seq<seq<nat>>, r: nat): nat
    requires r <= |order|
  {
    if r == 0 then 0 else EdgesBefore(order, r - 1) + |order[r - 1]|
  }

  lemma {:induction false} EdgesBeforeGrows(order: seq<seq<nat>>, r: nat, r': nat)
    requires r <= r' <= |order|
    ensures EdgesBefore(order, r) <= EdgesBefore(order, r')
  {
    if r < r' {
      EdgesBeforeGrows(order, r, r' - 1);
    }
  }

  function Total(order: seq<seq<nat>>): nat {
    EdgesBefore(order, |order|)
  }

  /** First message slot of row r in code block b. */
  function RowBase(order: seq<seq<nat>>, b: nat, r: nat): nat
    requires r <= |order|
  {
    (if b == 0 then 0 else Total(order)) + EdgesBefore(order, r)
  }

  lemma GroupBase(order: seq<seq<nat>>, b: nat, br: nat, rr: nat, deg: nat)
    requires rr < 2 && br + rr < |order| && |order[br]| == deg
    ensures GmBase(b, rr, EdgesBefore(order, br), deg, Total(order)) == RowBase(order, b, br + rr)
  {
    assert rr == 1 ==> EdgesBefore(order, br + 1) == EdgesBefore(order, br) + deg;
  }

  ghost predicate RowStored(gm: seq<int>, st: State, order: seq<seq<nat>>, r: nat, b: nat)
    requires r < |order|
  {
    MessageSlots(gm, st, order[r], r, RowBase(order, b, r))
  }

  /** The messages the group has just stored. */
  lemma RowBecomesStored(code: Code, q: Quantizer, st: State, cols: seq<nat>, t: Trace, gm: seq<int>,
                         deg: nat, base: nat, l: Lane, rows: nat, batch: nat)
    requires ValidCode(code) && code.z == Z && Shaped(code, st) && l.r < |code.table|
    requires GroupShape(rows, batch) && l.rr < rows && l.b < batch && deg == |cols|
    requires LaneDone(code, q, st, cols, true, t, l, rows, batch)
    requires LaneHolds(t.sent, gm, Slot(l.rr, l.b, batch), base, deg, Lanes(rows, batch))
    ensures MessageSlots(gm, RowStep(code, q, st, l.r), cols, l.r, base)
  {
    var next := RowStep(code, q, st, l.r);
    forall k: nat | k < |cols|
      ensures MessageSlot(gm, next, cols, l.r, base, k)
    {
      assert EdgeComputed(code, q, st, cols[k], true, t, l, rows, batch, k, 0);
      forall i: nat | i < Z
        ensures At(gm, base + k, i) == next.msg[l.r][cols[k]][i]
      {
        assert EdgeComputed(code, q, st, cols[k], true, t, l, rows, batch, k, i);
        LanePosition(k, l.rr, l.b, i, rows, batch);
        StepMessage(code, q, st, l.r, l.r, cols[k], i);
        assert At(t.sent, Slot(k, Slot(l.rr, l.b, batch), Lanes(rows, batch)), i) == At(gm, base + k, i);
      }
    }
  }

  /** Message slots of other rows are untouched. */
  lemma RowStaysStored(gm0: seq<int>, gm: seq<int>, st: State, next: State, order: seq<seq<nat>>, r: nat, b: nat,
                       br: nat, deg: nat, rows: nat)
    requires 1 <= rows <= 2 && br + rows <= |order| && r < |order| && !(br <= r < br + rows) && b < 2
    requires |order[br]| == deg && |order[br + rows - 1]| == deg
    requires OutsideKeptInGm(gm, gm0, EdgesBefore(order, br), deg, Total(order), rows)
    requires RowStored(gm0, st, order, r, b) && |next.msg| == |st.msg| && next.msg[r] == st.msg[r]
    ensures RowStored(gm, next, order, r, b)
  {
    forall k: nat | k < |order[r]|
      ensures MessageSlot(gm, next, order[r], r, RowBase(order, b, r), k)
    {
      OutsideSlots(order, r, k, b, br, deg, rows);
      assert MessageSlot(gm0, st, order[r], r, RowBase(order, b, r), k);
    }
  }

  lemma OutsideSlots(order: seq<seq<nat>>, r: nat, k: nat, b: nat, br: nat, deg: nat, rows: nat)
    requires r < |order| && k < |order[r]|
    requires 1 <= rows <= 2 && br + rows <= |order| && r < |order| && !(br <= r < br + rows) && b < 2
    requires |order[br]| == deg && |order[br + rows - 1]| == deg
    ensures !InGroup(RowBase(order, b, r) + k, EdgesBefore(order, br), deg, Total(order), rows)
  {
    EdgesBeforeGrows(order, r + 1, |order|);
    EdgesBeforeGrows(order, br + rows, |order|);
    assert EdgesBefore(order, r + 1) == EdgesBefore(order, r) + |order[r]|;
    assert EdgesBefore(order, br + 1) == EdgesBefore(order, br) + deg;
    assert rows == 2 ==> EdgesBefore(order, br + 2) == EdgesBefore(order, br + 1) + deg;
    if r < br {
      EdgesBeforeGrows(order, r + 1, br);
    } else {
      EdgesBeforeGrows(order, br + rows, r);
    }
  }

  // ---------- one lane across one group ----------

  /** Row r's messages as the pass needs them: rows still to come hold the previous pass's messages
      (none on the cold pass), rows already done hold this pass's, if they are kept at all. */
  ghost predicate RowReady(gm: seq<int>, st: State, order: seq<seq<nat>>, cold: bool, keep: bool, br: nat, r: nat,
                           b: nat)
    requires r < |order|
  {
    if r < br then keep ==> RowStored(gm, st, order, r, b)
    else if cold then NoMessages(st, order[r], r)
    else RowStored(gm, st, order, r, b)
  }

  ghost predicate MessagesReady(gm: seq<int>, st: State, order: seq<seq<nat>>, cold: bool, keep: bool, br: nat,
                                b: nat) {
    forall r: nat :: r < |order| ==> RowReady(gm, st, order, cold, keep, br, r, b)
  }

  /** Lane b of the kernel's buffers represents the plain state before row br of a pass. */
  ghost predicate LaneRelates(code: Code, lam: seq<real>, gm: seq<int>, order: seq<seq<nat>>, st: State,
                              cold: bool, keep: bool, br: nat, b: nat, batch: nat)
    requires ValidCode(code) && LaneCount(batch) && br <= |code.table|
  {
    && Shaped(code, st)
    && Resident(code, lam, st, CoordsAfter(code, StartOf(code, cold), br), b, batch)
    && MessagesReady(gm, st, order, cold, keep, br, b)
  }

  /** The group's buffers after RowGroup, and the dimensions the step depends on. */
  datatype Group = Group(br: nat, deg: nat, rows: nat, batch: nat, cold: bool, keep: bool)

  ghost predicate GroupRan(code: Code, plan: Plan, order: seq<seq<nat>>, q: Quantizer, g: Group, t: Trace,
                           lam0: seq<real>, lam: seq<real>, gm0: seq<int>, gm: seq<int>) {
    && GroupOf(code, plan, order, g.br, g.deg, g.rows) && GroupShape(g.rows, g.batch) && 2 <= g.deg
    && (g.rows == 2 ==> NoCommon(order[g.br], order[g.br + 1]))
    && Computed(t, plan, q, lam0, gm0, g.cold, g.keep, g.br, g.deg, EdgesBefore(order, g.br), Total(order), g.rows,
                g.batch)
    && Written(t, order, lam0, lam, gm0, gm, g.keep, g.br, g.deg, EdgesBefore(order, g.br), Total(order), g.rows,
               g.batch)
    && (g.keep ==> Slot(g.deg, 0, Lanes(g.rows, g.batch)) * Z <= |t.sent|)
    && Slot(code.n, 0, g.batch) * Z <= |lam0|
  }

  lemma LaneIsDone(code: Code, plan: Plan, order: seq<seq<nat>>, q: Quantizer, g: Group, t: Trace,
                   lam0: seq<real>, lam: seq<real>, gm0: seq<int>, gm: seq<int>, st: State, rr: nat, b: nat)
    requires GroupRan(code, plan, order, q, g, t, lam0, lam, gm0, gm) && Shaped(code, st)
    requires rr < g.rows && b < g.batch
    requires RowInput(code, st, order[g.br + rr], CoordsAfter(code, StartOf(code, g.cold), g.br + rr), lam0, b, g.batch)
    requires OldInput(st, order[g.br + rr], g.cold, gm0, g.br + rr, RowBase(order, b, g.br + rr))
    ensures LaneDone(code, q, st, order[g.br + rr], g.keep, t, Lane(g.br + rr, rr, b), g.rows, g.batch)
  {
    GroupBase(order, b, g.br, rr, g.deg);
    assert OrderedRow(code, plan, order, g.br + rr);
    LaneCompletes(code, plan, q, st, order[g.br + rr], g.cold, g.keep, lam0, gm0, t, g.br, g.deg,
                  EdgesBefore(order, g.br), Total(order), Lane(g.br + rr, rr, b), g.rows, g.batch);
  }

  /** What one row of the group finds after the scatter. */
  lemma GroupRowFacts(code: Code, plan: Plan, order: seq<seq<nat>>, q: Quantizer, g: Group, t: Trace,
                      lam0: seq<real>, lam: seq<real>, gm0: seq<int>, gm: seq<int>, rr: nat)
    requires GroupRan(code, plan, order, q, g, t, lam0, lam, gm0, gm) && rr < g.rows
    ensures ValidCode(code) && code.z == Z && g.br + rr < |order| == |code.table| && GroupShape(g.rows, g.batch)
    ensures RowCovered(code, order[g.br + rr], g.br + rr)
    ensures RowHolds(lam, order[g.br + rr], t.post, |order[g.br + rr]|, rr, g.rows, g.batch)
  {
    assert OrderedRow(code, plan, order, g.br + rr);
    assert GroupRowHolds(lam, order, t.post, g.br, rr, g.rows, g.batch);
  }

  lemma CoveredColumnResident(code: Code, q: Quantizer, st: State, cols: seq<nat>, keep: bool, t: Trace, lam: seq<real>,
                              l: Lane, rows: nat, batch: nat, c: nat, col: Column)
    requires ValidCode(code) && code.z == Z && Shaped(code, st) && l.r < |code.table|
    requires GroupShape(rows, batch) && l.rr < rows && l.b < batch && RowCovered(code, cols, l.r)
    requires LaneDone(code, q, st, cols, keep, t, l, rows, batch)
    requires RowHolds(lam, cols, t.post, |cols|, l.rr, rows, batch)
    requires c < code.n && code.table[l.r][c] >= 0 && col == RowStep(code, q, st, l.r).lam[c]
    ensures ResidentColumn(lam, col, code.table[l.r][c], c, l.b, batch)
  {
    var k := IndexOf(code, cols, l.r, c);
    RowBecomesResident(code, q, st, cols, keep, t, lam, l, rows, batch, k, col);
  }

  /** The columns of one row of the group, after the scatter. */
  lemma RowColumnResident(code: Code, plan: Plan, order: seq<seq<nat>>, q: Quantizer, g: Group, t: Trace,
                          lam0: seq<real>, lam: seq<real>, gm0: seq<int>, gm: seq<int>, st: State, rr: nat, b: nat,
                          c: nat)
    requires GroupRan(code, plan, order, q, g, t, lam0, lam, gm0, gm) && Shaped(code, st)
    requires rr < g.rows && b < g.batch && c < code.n && code.table[g.br + rr][c] >= 0
    requires LaneDone(code, q, st, order[g.br + rr], g.keep, t, Lane(g.br + rr, rr, b), g.rows, g.batch)
    ensures ResidentColumn(lam, RowStep(code, q, st, g.br + rr).lam[c], code.table[g.br + rr][c], c, b, g.batch)
  {
    GroupRowFacts(code, plan, order, q, g, t, lam0, lam, gm0, gm, rr);
    var r := g.br + rr;
    CoveredColumnResident(code, q, st, order[r], g.keep, t, lam, Lane(r, rr, b), g.rows, g.batch, c,
                          RowStep(code, q, st, r).lam[c]);
  }

  lemma IndexOf(code: Code, cols: seq<nat>, r: nat, c: nat) returns (k: nat)
    requires ValidCode(code) && r < |code.table| && RowCovered(code, cols, r) && c < code.n && code.table[r][c] >= 0
    ensures k < |cols| && cols[k] == c
  {
    assert c in cols;
    k :| k < |cols| && cols[k] == c;
  }

  lemma OrderedColumnsIncident(code: Code, plan: Plan, cols: seq<nat>, r: nat, c: nat)
    requires ValidCode(code) && r < |code.table| && RowRotates(code, plan, cols, r) && c in cols
    ensures c < code.n && code.table[r][c] >= 0
  {
    var k: nat :| k < |cols| && cols[k] == c;
    assert EntryRotates(code, plan, cols, true, r, k);
  }

  lemma UntouchedColumn(code: Code, plan: Plan, order: seq<seq<nat>>, q: Quantizer, g: Group, t: Trace,
                        lam0: seq<real>, lam: seq<real>, gm0: seq<int>, gm: seq<int>, col: Column, coord: nat, b: nat,
                        c: nat)
    requires GroupRan(code, plan, order, q, g, t, lam0, lam, gm0, gm)
    requires b < g.batch && c < code.n
    requires code.table[g.br][c] < 0 && code.table[g.br + g.rows - 1][c] < 0
    requires ResidentColumn(lam0, col, coord, c, b, g.batch)
    ensures ResidentColumn(lam, col, coord, c, b, g.batch)
  {
    assert OrderedRow(code, plan, order, g.br);
    assert OrderedRow(code, plan, order, g.br + g.rows - 1);
    if c in order[g.br] {
      OrderedColumnsIncident(code, plan, order[g.br], g.br, c);
    }
    if c in order[g.br + g.rows - 1] {
      OrderedColumnsIncident(code, plan, order[g.br + g.rows - 1], g.br + g.rows - 1, c);
    }
    KeptColumnStaysResident(lam0, lam, col, coord, c, b, g.batch);
  }

  lemma RowStoredUnchanged(gm: seq<int>, st: State, next: State, order: seq<seq<nat>>, r: nat, b: nat)
    requires r < |order| && RowStored(gm, st, order, r, b) && |next.msg| == |st.msg| && next.msg[r] == st.msg[r]
    ensures RowStored(gm, next, order, r, b)
  {
    forall k: nat | k < |order[r]|
      ensures MessageSlot(gm, next, order[r], r, RowBase(order, b, r), k)
    {
      assert MessageSlot(gm, st, order[r], r, RowBase(order, b, r), k);
    }
  }

  lemma NoMessagesUnchanged(st: State, next: State, cols: seq<nat>, r: nat)
    requires NoMessages(st, cols, r) && |next.msg| == |st.msg| && next.msg[r] == st.msg[r]
    ensures NoMessages(next, cols, r)
  {
    forall k: nat | k < |cols|
      ensures NoMessage(next, cols, r, k)
    {
      assert NoMessage(st, cols, r, k);
    }
  }

  /** Rows outside the group keep their messages. */
  lemma OtherRowReady(code: Code, plan: Plan, order: seq<seq<nat>>, q: Quantizer, g: Group, t: Trace,
                      lam0: seq<real>, lam: seq<real>, gm0: seq<int>, gm: seq<int>, st: State, next: State, r: nat,
                      b: nat)
    requires GroupRan(code, plan, order, q, g, t, lam0, lam, gm0, gm) && b < g.batch
    requires r < |order| && !(g.br <= r < g.br + g.rows) && |next.msg| == |st.msg| == |order|
    requires next.msg[r] == st.msg[r]
    requires RowReady(gm0, st, order, g.cold, g.keep, g.br, r, b)
    ensures RowReady(gm, next, order, g.cold, g.keep, g.br + g.rows, r, b)
  {
    if r > g.br && g.cold {
      NoMessagesUnchanged(st, next, order[r], r);
    } else if g.keep {
      RowStaysStored(gm0, gm, st, next, order, r, b, g.br, g.deg, g.rows);
    } else if r > g.br {
      RowStoredUnchanged(gm, st, next, order, r, b);
    }
  }

  /** A row of the group, once done, is stored if messages are kept. */
  lemma OwnRowStored(code: Code, plan: Plan, order: seq<seq<nat>>, q: Quantizer, g: Group, t: Trace,
                     lam0: seq<real>, lam: seq<real>, gm0: seq<int>, gm: seq<int>, st: State, rr: nat, b: nat)
    requires GroupRan(code, plan, order, q, g, t, lam0, lam, gm0, gm) && Shaped(code, st)
    requires rr < g.rows && b < g.batch && g.keep
    requires LaneDone(code, q, st, order[g.br + rr], g.keep, t, Lane(g.br + rr, rr, b), g.rows, g.batch)
    ensures RowStored(gm, RowStep(code, q, st, g.br + rr), order, g.br + rr, b)
  {
    GroupBase(order, b, g.br, rr, g.deg);
    assert GroupLaneHolds(t.sent, gm, EdgesBefore(order, g.br), g.deg, Total(order), rr, b, g.rows, g.batch);
    RowBecomesStored(code, q, st, order[g.br + rr], t, gm, g.deg, RowBase(order, b, g.br + rr),
                     Lane(g.br + rr, rr, b), g.rows, g.batch);
  }

  /** The group's first row sees the state the pass has reached. */
  lemma FirstRowIsDone(code: Code, plan: Plan, order: seq<seq<nat>>, q: Quantizer, g: Group, t: Trace,
                       lam0: seq<real>, lam: seq<real>, gm0: seq<int>, gm: seq<int>, st: State, b: nat)
    requires GroupRan(code, plan, order, q, g, t, lam0, lam, gm0, gm) && b < g.batch
    requires LaneRelates(code, lam0, gm0, order, st, g.cold, g.keep, g.br, b, g.batch)
    ensures LaneDone(code, q, st, order[g.br], g.keep, t, Lane(g.br, 0, b), g.rows, g.batch)
  {
    assert OrderedRow(code, plan, order, g.br);
    assert RowReady(gm0, st, order, g.cold, g.keep, g.br, g.br, b);
    OrderBelowN(code, plan, order[g.br], g.br);
    ResidentGivesInput(code, lam0, st, CoordsAfter(code, StartOf(code, g.cold), g.br), order[g.br], b, g.batch);
    LaneIsDone(code, plan, order, q, g, t, lam0, lam, gm0, gm, st, 0, b);
  }

  lemma OrderBelowN(code: Code, plan: Plan, cols: seq<nat>, r: nat)
    requires ValidCode(code) && r < |code.table| && RowRotates(code, plan, cols, r)
    ensures forall k: nat :: k < |cols| ==> cols[k] < code.n
  {
    forall k: nat | k < |cols|
      ensures cols[k] < code.n
    {
      assert EntryRotates(code, plan, cols, true, r, k);
    }
  }

  // ---------- a single row ----------

  lemma SingleRowResident(code: Code, plan: Plan, order: seq<seq<nat>>, q: Quantizer, g: Group, t: Trace,
                          lam0: seq<real>, lam: seq<real>, gm0: seq<int>, gm: seq<int>, st: State, b: nat)
    requires GroupRan(code, plan, order, q, g, t, lam0, lam, gm0, gm) && b < g.batch && g.rows == 1
    requires Shaped(code, st) && Resident(code, lam0, st, CoordsAfter(code, StartOf(code, g.cold), g.br), b, g.batch)
    requires LaneDone(code, q, st, order[g.br], g.keep, t, Lane(g.br, 0, b), g.rows, g.batch)
    ensures Resident(code, lam, RowStep(code, q, st, g.br), CoordsAfter(code, StartOf(code, g.cold), g.br + 1), b,
                     g.batch)
  {
    var start := StartOf(code, g.cold);
    var next, cur := RowStep(code, q, st, g.br), CoordsAfter(code, start, g.br + 1);
    forall c: nat | c < code.n
      ensures ResidentAt(lam, next, cur, c, b, g.batch)
    {
      CoordsStep(code, start, g.br, c);
      if code.table[g.br][c] >= 0 {
        RowColumnResident(code, plan, order, q, g, t, lam0, lam, gm0, gm, st, 0, b, c);
      } else {
        StepLeavesOthers(code, q, st, g.br, c);
        assert ResidentAt(lam0, st, CoordsAfter(code, start, g.br), c, b, g.batch);
        UntouchedColumn(code, plan, order, q, g, t, lam0, lam, gm0, gm, st.lam[c], cur[c], b, c);
      }
    }
  }

  lemma SingleRowMessages(code: Code, plan: Plan, order: seq<seq<nat>>, q: Quantizer, g: Group, t: Trace,
                          lam0: seq<real>, lam: seq<real>, gm0: seq<int>, gm: seq<int>, st: State, b: nat)
    requires GroupRan(code, plan, order, q, g, t, lam0, lam, gm0, gm) && b < g.batch && g.rows == 1
    requires Shaped(code, st) && MessagesReady(gm0, st, order, g.cold, g.keep, g.br, b)
    requires LaneDone(code, q, st, order[g.br], g.keep, t, Lane(g.br, 0, b), g.rows, g.batch)
    ensures MessagesReady(gm, RowStep(code, q, st, g.br), order, g.cold, g.keep, g.br + 1, b)
  {
    var next, after := RowStep(code, q, st, g.br), g.br + 1;
    forall r: nat | r < |order|
      ensures RowReady(gm, next, order, g.cold, g.keep, after, r, b)
    {
      if r == g.br {
        if g.keep {
          OwnRowStored(code, plan, order, q, g, t, lam0, lam, gm0, gm, st, 0, b);
        }
      } else {
        StepLeavesRows(code, q, st, g.br, r);
        assert RowReady(gm0, st, order, g.cold, g.keep, g.br, r, b);
        OtherRowReady(code, plan, order, q, g, t, lam0, lam, gm0, gm, st, next, r, b);
      }
    }
  }

  /** A single row of the kernel is one row step of the plain decoder. */
  lemma SingleRowRefines(code: Code, plan: Plan, order: seq<seq<nat>>, q: Quantizer, g: Group, t: Trace,
                         lam0: seq<real>, lam: seq<real>, gm0: seq<int>, gm: seq<int>, st: State, b: nat)
    requires GroupRan(code, plan, order, q, g, t, lam0, lam, gm0, gm) && b < g.batch && g.rows == 1
    requires LaneRelates(code, lam0, gm0, order, st, g.cold, g.keep, g.br, b, g.batch)
    ensures LaneRelates(code, lam, gm, order, RowStep(code, q, st, g.br), g.cold, g.keep, g.br + 1, b, g.batch)
  {
    FirstRowIsDone(code, plan, order, q, g, t, lam0, lam, gm0, gm, st, b);
    SingleRowResident(code, plan, order, q, g, t, lam0, lam, gm0, gm, st, b);
    SingleRowMessages(code, plan, order, q, g, t, lam0, lam, gm0, gm, st, b);
  }

  // ---------- a fused pair ----------

  lemma PairDisjoint(code: Code, plan: Plan, order: seq<seq<nat>>, br: nat, c: nat)
    requires PlanOk(code, plan, order) && br + 1 < |order| && NoCommon(order[br], order[br + 1]) && c < code.n
    ensures code.table[br][c] < 0 || code.table[br + 1][c] < 0
  {
    assert OrderedRow(code, plan, order, br);
    assert OrderedRow(code, plan, order, br + 1);
    assert code.table[br][c] >= 0 ==> c in order[br];
    assert code.table[br + 1][c] >= 0 ==> c in order[br + 1];
  }

  /** The second row of the pair sees, in the untouched buffers, the state after the first. */
  lemma SecondRowInput(code: Code, plan: Plan, order: seq<seq<nat>>, q: Quantizer, g: Group,
                       lam0: seq<real>, st: State, b: nat)
    requires GroupOf(code, plan, order, g.br, g.deg, g.rows) && GroupShape(g.rows, g.batch) && g.rows == 2
    requires NoCommon(order[g.br], order[g.br + 1]) && Shaped(code, st)
    requires Resident(code, lam0, st, CoordsAfter(code, StartOf(code, g.cold), g.br), b, g.batch)
    ensures RowInput(code, RowStep(code, q, st, g.br), order[g.br + 1],
                     CoordsAfter(code, StartOf(code, g.cold), g.br + 1), lam0, b, g.batch)
  {
    var start, cols := StartOf(code, g.cold), order[g.br + 1];
    var next, cur := RowStep(code, q, st, g.br), CoordsAfter(code, start, g.br + 1);
    assert OrderedRow(code, plan, order, g.br + 1);
    forall k: nat | k < |cols|
      ensures cols[k] < code.n && ResidentColumn(lam0, next.lam[cols[k]], cur[cols[k]], cols[k], b, g.batch)
    {
      assert cols[k] in cols;
      OrderedColumnsIncident(code, plan, cols, g.br + 1, cols[k]);
      PairDisjoint(code, plan, order, g.br, cols[k]);
      CoordsStep(code, start, g.br, cols[k]);
      StepLeavesOthers(code, q, st, g.br, cols[k]);
      assert ResidentAt(lam0, st, CoordsAfter(code, start, g.br), cols[k], b, g.batch);
    }
  }

  lemma SecondRowMessages(code: Code, q: Quantizer, gm: seq<int>, order: seq<seq<nat>>, st: State, cold: bool,
                          keep: bool, r: nat, b: nat)
    requires ValidCode(code) && Shaped(code, st) && r + 1 < |code.table| == |order|
    requires RowReady(gm, st, order, cold, keep, r, r + 1, b)
    ensures OldInput(RowStep(code, q, st, r), order[r + 1], cold, gm, r + 1, RowBase(order, b, r + 1))
  {
    var next := RowStep(code, q, st, r);
    StepLeavesRows(code, q, st, r, r + 1);
    if cold {
      NoMessagesUnchanged(st, next, order[r + 1], r + 1);
    } else {
      RowStoredUnchanged(gm, st, next, order, r + 1, b);
    }
  }

  lemma SecondRowIsDone(code: Code, plan: Plan, order: seq<seq<nat>>, q: Quantizer, g: Group, t: Trace,
                        lam0: seq<real>, lam: seq<real>, gm0: seq<int>, gm: seq<int>, st: State, mid: State, b: nat)
    requires GroupRan(code, plan, order, q, g, t, lam0, lam, gm0, gm) && b < g.batch && g.rows == 2
    requires LaneRelates(code, lam0, gm0, order, st, g.cold, g.keep, g.br, b, g.batch)
    requires mid == RowStep(code, q, st, g.br)
    ensures LaneDone(code, q, mid, order[g.br + 1], g.keep, t, Lane(g.br + 1, 1, b), g.rows, g.batch)
  {
    SecondRowInput(code, plan, order, q, g, lam0, st, b);
    assert RowReady(gm0, st, order, g.cold, g.keep, g.br, g.br + 1, b);
    SecondRowMessages(code, q, gm0, order, st, g.cold, g.keep, g.br, b);
    LaneIsDone(code, plan, order, q, g, t, lam0, lam, gm0, gm, mid, 1, b);
  }

  /** Column c after the two steps of a fused pair, */
  ghost predicate PairColumn(code: Code, q: Quantizer, st: State, mid: State, r: nat, c: nat, col: Column)
    requires ValidCode(code) && Shaped(code, st) && Shaped(code, mid) && r + 1 < |code.table| && c < code.n
  {
    if code.table[r + 1][c] >= 0 then col == RowStep(code, q, mid, r + 1).lam[c]
    else if code.table[r][c] >= 0 then col == RowStep(code, q, st, r).lam[c]
    else col == st.lam[c]
  }

  /** and the coordinate it is left in. */
  predicate PairCoord(code: Code, r: nat, c: nat, was: nat, coord: nat)
    requires r + 1 < |code.table| && c < |code.table[r]| && c < |code.table[r + 1]|
  {
    coord == if code.table[r + 1][c] >= 0 then code.table[r + 1][c]
             else if code.table[r][c] >= 0 then code.table[r][c] else was
  }

  lemma PairColumns(code: Code, q: Quantizer, st: State, mid: State, r: nat, c: nat)
    requires ValidCode(code) && Shaped(code, st) && r + 1 < |code.table| && c < code.n && mid == RowStep(code, q, st, r)
    ensures PairColumn(code, q, st, mid, r, c, RowStep(code, q, mid, r + 1).lam[c])
  {
    if code.table[r + 1][c] < 0 {
      StepLeavesOthers(code, q, mid, r + 1, c);
      if code.table[r][c] < 0 {
        StepLeavesOthers(code, q, st, r, c);
      }
    }
  }

  lemma PairCoords(code: Code, start: seq<nat>, r: nat, c: nat)
    requires ValidCode(code) && r + 1 < |code.table| && c < code.n && |start| == code.n
    ensures PairCoord(code, r, c, CoordsAfter(code, start, r)[c], CoordsAfter(code, start, r + 2)[c])
  {
    CoordsStep(code, start, r, c);
    CoordsStep(code, start, r + 1, c);
  }

  lemma PairValueResident(code: Code, plan: Plan, order: seq<seq<nat>>, q: Quantizer, g: Group, t: Trace,
                          lam0: seq<real>, lam: seq<real>, gm0: seq<int>, gm: seq<int>, st: State, mid: State, b: nat,
                          c: nat, was: nat, col: Column, coord: nat)
    requires GroupRan(code, plan, order, q, g, t, lam0, lam, gm0, gm) && b < g.batch && g.rows == 2 && c < code.n
    requires Shaped(code, st) && Shaped(code, mid) && ResidentColumn(lam0, st.lam[c], was, c, b, g.batch)
    requires LaneDone(code, q, st, order[g.br], g.keep, t, Lane(g.br, 0, b), g.rows, g.batch)
    requires LaneDone(code, q, mid, order[g.br + 1], g.keep, t, Lane(g.br + 1, 1, b), g.rows, g.batch)
    requires PairColumn(code, q, st, mid, g.br, c, col) && PairCoord(code, g.br, c, was, coord)
    ensures ResidentColumn(lam, col, coord, c, b, g.batch)
  {
    if code.table[g.br + 1][c] >= 0 {
      RowColumnResident(code, plan, order, q, g, t, lam0, lam, gm0, gm, mid, 1, b, c);
    } else if code.table[g.br][c] >= 0 {
      RowColumnResident(code, plan, order, q, g, t, lam0, lam, gm0, gm, st, 0, b, c);
    } else {
      UntouchedColumn(code, plan, order, q, g, t, lam0, lam, gm0, gm, st.lam[c], was, b, c);
    }
  }

  lemma PairColumnResident(code: Code, plan: Plan, order: seq<seq<nat>>, q: Quantizer, g: Group, t: Trace,
                           lam0: seq<real>, lam: seq<real>, gm0: seq<int>, gm: seq<int>, st: State, mid: State,
                           next: State, b: nat, c: nat)
    requires GroupRan(code, plan, order, q, g, t, lam0, lam, gm0, gm) && b < g.batch && g.rows == 2 && c < code.n
    requires Shaped(code, st) && Resident(code, lam0, st, CoordsAfter(code, StartOf(code, g.cold), g.br), b, g.batch)
    requires mid == RowStep(code, q, st, g.br) && next == RowStep(code, q, mid, g.br + 1)
    requires LaneDone(code, q, st, order[g.br], g.keep, t, Lane(g.br, 0, b), g.rows, g.batch)
    requires LaneDone(code, q, mid, order[g.br + 1], g.keep, t, Lane(g.br + 1, 1, b), g.rows, g.batch)
    ensures ResidentAt(lam, next, CoordsAfter(code, StartOf(code, g.cold), g.br + 2), c, b, g.batch)
  {
    var start := StartOf(code, g.cold);
    PairColumns(code, q, st, mid, g.br, c);
    PairCoords(code, start, g.br, c);
    assert ResidentAt(lam0, st, CoordsAfter(code, start, g.br), c, b, g.batch);
    PairValueResident(code, plan, order, q, g, t, lam0, lam, gm0, gm, st, mid, b, c, CoordsAfter(code, start, g.br)[c],
                      next.lam[c], CoordsAfter(code, start, g.br + 2)[c]);
  }

  lemma PairRowReady(code: Code, plan: Plan, order: seq<seq<nat>>, q: Quantizer, g: Group, t: Trace,
                     lam0: seq<real>, lam: seq<real>, gm0: seq<int>, gm: seq<int>, st: State, b: nat, r: nat)
    requires GroupRan(code, plan, order, q, g, t, lam0, lam, gm0, gm) && b < g.batch && g.rows == 2 && r < |order|
    requires Shaped(code, st) && RowReady(gm0, st, order, g.cold, g.keep, g.br, r, b)
    requires LaneDone(code, q, st, order[g.br], g.keep, t, Lane(g.br, 0, b), g.rows, g.batch)
    requires LaneDone(code, q, RowStep(code, q, st, g.br), order[g.br + 1], g.keep, t, Lane(g.br + 1, 1, b), g.rows,
                      g.batch)
    ensures RowReady(gm, RowStep(code, q, RowStep(code, q, st, g.br), g.br + 1), order, g.cold, g.keep, g.br + 2, r, b)
  {
    var mid := RowStep(code, q, st, g.br);
    var next := RowStep(code, q, mid, g.br + 1);
    if r == g.br + 1 {
      if g.keep {
        OwnRowStored(code, plan, order, q, g, t, lam0, lam, gm0, gm, mid, 1, b);
      }
    } else {
      StepLeavesRows(code, q, mid, g.br + 1, r);
      if r == g.br {
        if g.keep {
          OwnRowStored(code, plan, order, q, g, t, lam0, lam, gm0, gm, st, 0, b);
          RowStoredUnchanged(gm, mid, next, order, r, b);
        }
      } else {
        StepLeavesRows(code, q, st, g.br, r);
        OtherRowReady(code, plan, order, q, g, t, lam0, lam, gm0, gm, st, next, r, b);
      }
    }
  }

  /**
   Processing a fused pair at once, both gathers before either scatter, is processing its two rows
   in sequence: the pair has equal degree and no common column.
   */
  lemma FusedPairRefines(code: Code, plan: Plan, order: seq<seq<nat>>, q: Quantizer, g: Group, t: Trace,
                         lam0: seq<real>, lam: seq<real>, gm0: seq<int>, gm: seq<int>, st: State, b: nat)
    requires GroupRan(code, plan, order, q, g, t, lam0, lam, gm0, gm) && b < g.batch && g.rows == 2
    requires LaneRelates(code, lam0, gm0, order, st, g.cold, g.keep, g.br, b, g.batch)
    ensures LaneRelates(code, lam, gm, order, RowStep(code, q, RowStep(code, q, st, g.br), g.br + 1),
                        g.cold, g.keep, g.br + 2, b, g.batch)
  {
    var mid := RowStep(code, q, st, g.br);
    var next := RowStep(code, q, mid, g.br + 1);
    FirstRowIsDone(code, plan, order, q, g, t, lam0, lam, gm0, gm, st, b);
    SecondRowIsDone(code, plan, order, q, g, t, lam0, lam, gm0, gm, st, mid, b);
    var after := g.br + 2;
    var cur := CoordsAfter(code, StartOf(code, g.cold), after);
    forall c: nat | c < code.n
      ensures ResidentAt(lam, next, cur, c, b, g.batch)
    {
      PairColumnResident(code, plan, order, q, g, t, lam0, lam, gm0, gm, st, mid, next, b, c);
    }
    forall r: nat | r < |order|
      ensures RowReady(gm, next, order, g.cold, g.keep, after, r, b)
    {
      assert RowReady(gm0, st, order, g.cold, g.keep, g.br, r, b);
      PairRowReady(code, plan, order, q, g, t, lam0, lam, gm0, gm, st, b, r);
    }
  }
}
