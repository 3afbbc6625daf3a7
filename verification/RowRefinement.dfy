/** A row group of the kernel computes, lane by lane, what the plain decoder's row steps compute. */
module RowRefinement {
  import opened CheckNode
  import opened LayeredDecoder
  import opened GraphPlan
  import opened ShiftKernel
  import opened GatherKernel
  import opened CheckKernel
  import opened MessageKernel
  import opened RowKernel

  /** Rotating by the relative shift and then by the resident coordinate is the edge's own shift. */
  lemma RelativeShift(i: nat, s: nat, cur: nat, z: nat)
    requires i < z && s < z && cur < z
    ensures BitOf(BitOf(i, Delta(s, cur, z), z), cur, z) == BitOf(i, s, z)
  {
  }

  /** The lane of column c is the plain column rotated by its current coordinate. */
  ghost predicate ResidentColumn(lam: seq<real>, col: Column, coord: nat, c: nat, b: nat, batch: nat)
    requires LaneCount(batch)
  {
    && coord < Z == |col| && Slot(c, b, batch) * Z + Z <= |lam|
    && forall i: nat :: i < Z ==> At(lam, Slot(c, b, batch), i) == col[BitOf(i, coord, Z)]
  }

  /** Message slots base.. hold the stored messages of row r in the plan's edge order. */
  ghost predicate MessageSlots(gm: seq<int>, st: State, cols: seq<nat>, r: nat, base: nat) {
    && r < |st.msg| && (base + |cols|) * Z <= |gm|
    && forall k: nat :: k < |cols| ==> MessageSlot(gm, st, cols, r, base, k)
  }

  ghost predicate MessageSlot(gm: seq<int>, st: State, cols: seq<nat>, r: nat, base: nat, k: nat)
    requires k < |cols| && r < |st.msg| && (base + |cols|) * Z <= |gm|
  {
    && cols[k] < |st.msg[r]| && |st.msg[r][cols[k]]| == Z
    && forall i: nat :: i < Z ==> At(gm, base + k, i) == st.msg[r][cols[k]][i]
  }

  ghost predicate NoMessages(st: State, cols: seq<nat>, r: nat) {
    && r < |st.msg|
    && forall k: nat :: k < |cols| ==> NoMessage(st, cols, r, k)
  }

  ghost predicate NoMessage(st: State, cols: seq<nat>, r: nat, k: nat)
    requires k < |cols| && r < |st.msg|
  {
    && cols[k] < |st.msg[r]| && |st.msg[r][cols[k]]| == Z
    && forall i: nat :: i < Z ==> st.msg[r][cols[k]][i] == 0
  }

  /** What lane b offers row r before the group runs. */
  ghost predicate RowInput(code: Code, st: State, cols: seq<nat>, cur: seq<nat>, lam: seq<real>, b: nat, batch: nat)
    requires LaneCount(batch)
  {
    && |cur| == |st.lam| == code.n
    && forall k: nat :: k < |cols| ==>
         cols[k] < code.n && ResidentColumn(lam, st.lam[cols[k]], cur[cols[k]], cols[k], b, batch)
  }

  /** Element i of lane (rr, b): its place in the stride and in the interleaved slots. */
  lemma LanePosition(k: nat, rr: nat, b: nat, i: nat, rows: nat, batch: nat)
    requires GroupShape(rows, batch) && rr < rows && b < batch && i < Z
    ensures var e := Slot(rr, b, batch) * Z + i;
            && e < Stride(Lanes(rows, batch))
            && Slot(k, 0, Lanes(rows, batch)) * Z + e == Slot(Slot(k, rr, rows), b, batch) * Z + i
            && Slot(k, Slot(rr, b, batch), Lanes(rows, batch)) == Slot(Slot(k, rr, rows), b, batch)
  {
  }

  lemma LaneSlotInside(k: nat, deg: nat, rr: nat, b: nat, rows: nat, batch: nat)
    requires GroupShape(rows, batch) && rr < rows && b < batch && k < deg
    ensures Slot(Slot(k, rr, rows), b, batch) * Z + Z <= Slot(deg, 0, Lanes(rows, batch)) * Z
  {
  }

  /** One lane of one row in the group's workspace. */
  datatype Lane = Lane(r: nat, rr: nat, b: nat)

  ghost predicate LaneInGroup(l: Lane, br: nat, rows: nat, batch: nat) {
    l.rr < rows && l.b < batch && l.r == br + l.rr
  }

  ghost predicate GatheredValue(t: Trace, lam: seq<real>, word: nat, k: nat, i: nat, l: Lane, rows: nat, batch: nat)
    requires GroupShape(rows, batch) && l.rr < rows && l.b < batch && i < Z
  {
    && ShiftOf(word) < Z
    && Slot(Slot(k, l.rr, rows), l.b, batch) * Z + Z <= |t.gath|
    && Slot(ColumnOf(word), l.b, batch) * Z + Z <= |lam|
    && At(t.gath, Slot(Slot(k, l.rr, rows), l.b, batch), i)
       == At(lam, Slot(ColumnOf(word), l.b, batch), BitOf(i, ShiftOf(word), Z))
  }

  lemma GatheredAt(t: Trace, plan: Plan, lam: seq<real>, cold: bool, br: nat, deg: nat, l: Lane, rows: nat,
                   batch: nat, k: nat, i: nat)
    requires GroupShape(rows, batch) && LaneInGroup(l, br, rows, batch) && k < deg && i < Z
    requires GroupRowGathered(plan, cold, t.gath, lam, br, deg, l.rr, rows, batch)
    ensures l.r * MAX_DEG + k < |TableOf(plan, cold)|
    ensures GatheredValue(t, lam, TableOf(plan, cold)[l.r * MAX_DEG + k], k, i, l, rows, batch)
  {
    var pack := l.r * MAX_DEG;
    var word := TableOf(plan, cold)[pack + k];
    assert EdgeGathered(t.gath, lam, word, Slot(k, l.rr, rows), batch);
    GatheredEdgeAt(t, lam, word, l, rows, batch, k, i);
  }

  lemma GatheredEdgeAt(t: Trace, lam: seq<real>, word: nat, l: Lane, rows: nat, batch: nat, k: nat, i: nat)
    requires GroupShape(rows, batch) && l.rr < rows && l.b < batch && i < Z
    requires EdgeGathered(t.gath, lam, word, Slot(k, l.rr, rows), batch)
    ensures GatheredValue(t, lam, word, k, i, l, rows, batch)
  {
  }

  /** The gathered element is the plain posterior that check i of the row meets in column k. */
  lemma GatheredIsPlain(code: Code, plan: Plan, st: State, cols: seq<nat>, cold: bool, lam: seq<real>, t: Trace,
                        br: nat, deg: nat, l: Lane, rows: nat, batch: nat, k: nat, i: nat)
    requires ValidCode(code) && code.z == Z && Shaped(code, st) && l.r < |code.table|
    requires GroupShape(rows, batch) && LaneInGroup(l, br, rows, batch) && k < deg == |cols| && i < Z
    requires RowNamed(code, plan, cols, l.r) && RowRotates(code, plan, cols, l.r)
    requires RowInput(code, st, cols, CoordsAfter(code, StartOf(code, cold), l.r), lam, l.b, batch)
    requires GroupRowGathered(plan, cold, t.gath, lam, br, deg, l.rr, rows, batch)
    ensures cols[k] < code.n && 0 <= code.table[l.r][cols[k]] < Z
    ensures Slot(Slot(k, l.rr, rows), l.b, batch) * Z + Z <= |t.gath|
    ensures At(t.gath, Slot(Slot(k, l.rr, rows), l.b, batch), i)
         == st.lam[cols[k]][BitOf(i, code.table[l.r][cols[k]], Z)]
  {
    GatheredAt(t, plan, lam, cold, br, deg, l, rows, batch, k, i);
    assert EntryNamed(code, plan, cols, cold, l.r, k);
    assert EntryRotates(code, plan, cols, cold, l.r, k);
    var c := cols[k];
    var cur := CoordsAfter(code, StartOf(code, cold), l.r)[c];
    var d := Delta(code.table[l.r][c], cur, Z);
    RelativeShift(i, code.table[l.r][c], cur, Z);
    assert ResidentColumn(lam, st.lam[c], cur, c, l.b, batch);
    assert At(lam, Slot(c, l.b, batch), BitOf(i, d, Z)) == st.lam[c][BitOf(BitOf(i, d, Z), cur, Z)];
  }

  /** The old messages the group subtracts are the plain decoder's stored ones. */
  ghost predicate OldInput(st: State, cols: seq<nat>, cold: bool, gm: seq<int>, r: nat, base: nat) {
    if cold then NoMessages(st, cols, r) else MessageSlots(gm, st, cols, r, base)
  }

  lemma PreviousIsPlain(st: State, cols: seq<nat>, cold: bool, gm: seq<int>, t: Trace, br: nat, deg: nat,
                        off: nat, total: nat, l: Lane, rows: nat, batch: nat, k: nat, i: nat)
    requires GroupShape(rows, batch) && LaneInGroup(l, br, rows, batch) && k < deg == |cols| && i < Z
    requires OldInput(st, cols, cold, gm, l.r, GmBase(l.b, l.rr, off, deg, total))
    requires OldMessages(t.prev, t.stored, cold, Slot(deg, 0, Lanes(rows, batch)) * Z)
    requires !cold ==> GroupHolds(t.stored, gm, off, deg, total, rows, batch)
    ensures l.r < |st.msg| && cols[k] < |st.msg[l.r]| && |st.msg[l.r][cols[k]]| == Z
    ensures Slot(Slot(k, l.rr, rows), l.b, batch) * Z + Z <= |t.prev|
    ensures At(t.prev, Slot(Slot(k, l.rr, rows), l.b, batch), i) == st.msg[l.r][cols[k]][i] as real
  {
    LanePosition(k, l.rr, l.b, i, rows, batch);
    if cold {
      assert NoMessage(st, cols, l.r, k);
    } else {
      var base := GmBase(l.b, l.rr, off, deg, total);
      assert GroupLaneHolds(t.stored, gm, off, deg, total, l.rr, l.b, rows, batch);
      assert MessageSlot(gm, st, cols, l.r, base, k);
      assert At(t.stored, Slot(k, Slot(l.rr, l.b, batch), Lanes(rows, batch)), i) == At(gm, base + k, i);
    }
  }

  /** Everything one lane of one row is given. */
  ghost predicate LaneGiven(code: Code, plan: Plan, st: State, cols: seq<nat>, cold: bool, lam: seq<real>, gm: seq<int>,
                            br: nat, deg: nat, off: nat, total: nat, l: Lane, rows: nat, batch: nat)
    requires GroupShape(rows, batch)
  {
    && ValidCode(code) && code.z == Z && Shaped(code, st) && l.r < |code.table| == |plan.split|
    && LaneInGroup(l, br, rows, batch) && deg == |cols| && RowPlanned(code, plan, cols, l.r)
    && RowInput(code, st, cols, CoordsAfter(code, StartOf(code, cold), l.r), lam, l.b, batch)
    && OldInput(st, cols, cold, gm, l.r, GmBase(l.b, l.rr, off, deg, total))
  }

  /** The element holds what column c offers check i, split into posterior and old message. */
  ghost predicate ElementOffers(code: Code, st: State, c: nat, t: Trace, k: nat, i: nat, l: Lane, rows: nat, batch: nat)
    requires GroupShape(rows, batch) && i < Z
  {
    var slot := Slot(Slot(k, l.rr, rows), l.b, batch);
    && l.r < |code.table| && c < |code.table[l.r]| && 0 <= code.table[l.r][c] < Z
    && c < |st.lam| && |st.lam[c]| == Z && l.r < |st.msg| && c < |st.msg[l.r]| && |st.msg[l.r][c]| == Z
    && slot * Z + Z <= |t.gath| && slot * Z + Z <= |t.prev|
    && At(t.gath, slot, i) == st.lam[c][BitOf(i, code.table[l.r][c], Z)]
    && At(t.prev, slot, i) == st.msg[l.r][c][i] as real
  }

  lemma ElementIsOffer(code: Code, plan: Plan, q: Quantizer, st: State, cols: seq<nat>, cold: bool, keep: bool,
                       lam: seq<real>, gm: seq<int>, t: Trace, br: nat, deg: nat, off: nat, total: nat, l: Lane,
                       rows: nat, batch: nat, k: nat, i: nat)
    requires GroupShape(rows, batch)
    requires LaneGiven(code, plan, st, cols, cold, lam, gm, br, deg, off, total, l, rows, batch)
    requires 2 <= deg && Computed(t, plan, q, lam, gm, cold, keep, br, deg, off, total, rows, batch)
    requires k < deg && i < Z
    ensures ElementOffers(code, st, cols[k], t, k, i, l, rows, batch)
  {
    assert GroupRowGathered(plan, cold, t.gath, lam, br, deg, l.rr, rows, batch);
    GatheredIsPlain(code, plan, st, cols, cold, lam, t, br, deg, l, rows, batch, k, i);
    PreviousIsPlain(st, cols, cold, gm, t, br, deg, off, total, l, rows, batch, k, i);
  }

  lemma DifferenceIsOffer(code: Code, st: State, c: nat, t: Trace, deg: nat, k: nat, i: nat, l: Lane, rows: nat,
                          batch: nat)
    requires ValidCode(code) && code.z == Z && Shaped(code, st) && c < code.n
    requires GroupShape(rows, batch) && l.rr < rows && l.b < batch && k < deg && i < Z
    requires ElementOffers(code, st, c, t, k, i, l, rows, batch)
    requires Slot(deg, 0, Lanes(rows, batch)) * Z <= |t.gath| == |t.ext|
    requires Slot(deg, 0, Lanes(rows, batch)) * Z <= |t.prev|
    requires forall e :: 0 <= e < Slot(deg, 0, Lanes(rows, batch)) * Z ==> t.ext[e] == t.gath[e] - t.prev[e]
    ensures c in OffersAt(code, st, l.r, i)
    ensures Slot(l.rr, l.b, batch) * Z + i < Stride(Lanes(rows, batch))
    ensures ValuesAt(t.ext, deg, Lanes(rows, batch), Slot(l.rr, l.b, batch) * Z + i)[k] == OffersAt(code, st, l.r, i)[c]
  {
    LanePosition(k, l.rr, l.b, i, rows, batch);
    ValueIsEdge(t.ext, deg, Lanes(rows, batch), Slot(l.rr, l.b, batch) * Z + i, k);
  }

  lemma ValueIsOffer(code: Code, plan: Plan, q: Quantizer, st: State, cols: seq<nat>, cold: bool, keep: bool,
                     lam: seq<real>, gm: seq<int>, t: Trace, br: nat, deg: nat, off: nat, total: nat, l: Lane,
                     rows: nat, batch: nat, k: nat, i: nat)
    requires GroupShape(rows, batch)
    requires LaneGiven(code, plan, st, cols, cold, lam, gm, br, deg, off, total, l, rows, batch)
    requires 2 <= deg && Computed(t, plan, q, lam, gm, cold, keep, br, deg, off, total, rows, batch)
    requires k < deg && i < Z
    ensures cols[k] in OffersAt(code, st, l.r, i)
    ensures Slot(l.rr, l.b, batch) * Z + i < Stride(Lanes(rows, batch))
    ensures ValuesAt(t.ext, deg, Lanes(rows, batch), Slot(l.rr, l.b, batch) * Z + i)[k]
         == OffersAt(code, st, l.r, i)[cols[k]]
  {
    ElementIsOffer(code, plan, q, st, cols, cold, keep, lam, gm, t, br, deg, off, total, l, rows, batch, k, i);
    DifferenceIsOffer(code, st, cols[k], t, deg, k, i, l, rows, batch);
  }

  lemma ValuesListOffers(code: Code, plan: Plan, q: Quantizer, st: State, cols: seq<nat>, cold: bool, keep: bool,
                         lam: seq<real>, gm: seq<int>, t: Trace, br: nat, deg: nat, off: nat, total: nat, l: Lane,
                         rows: nat, batch: nat, i: nat)
    requires GroupShape(rows, batch)
    requires LaneGiven(code, plan, st, cols, cold, lam, gm, br, deg, off, total, l, rows, batch)
    requires 2 <= deg && Computed(t, plan, q, lam, gm, cold, keep, br, deg, off, total, rows, batch)
    requires i < Z
    ensures Slot(l.rr, l.b, batch) * Z + i < Stride(Lanes(rows, batch))
    ensures Lists(OffersAt(code, st, l.r, i), cols,
        ValuesAt(t.ext, deg, Lanes(rows, batch), Slot(l.rr, l.b, batch) * Z + i))
  {
    LanePosition(0, l.rr, l.b, i, rows, batch);
    var v, vals := OffersAt(code, st, l.r, i), ValuesAt(t.ext, deg, Lanes(rows, batch), Slot(l.rr, l.b, batch) * Z + i);
    forall k: nat | k < deg
      ensures cols[k] in v && v[cols[k]] == vals[k]
    {
      ValueIsOffer(code, plan, q, st, cols, cold, keep, lam, gm, t, br, deg, off, total, l, rows, batch, k, i);
    }
    forall c | c in v
      ensures c in cols
    {
      assert RowCovered(code, cols, l.r);
    }
  }

  /** Edge k of the lane: posterior and stored message are those of the plain row step. */
  ghost predicate EdgeComputed(code: Code, q: Quantizer, st: State, c: nat, keep: bool, t: Trace,
                               l: Lane, rows: nat, batch: nat, k: nat, i: nat)
    requires ValidCode(code) && code.z == Z && Shaped(code, st) && l.r < |code.table| && GroupShape(rows, batch)
    requires i < Z
  {
    var slot := Slot(Slot(k, l.rr, rows), l.b, batch);
    && c < code.n && 0 <= code.table[l.r][c] < Z
    && slot * Z + Z <= |t.post|
    && At(t.post, slot, i) == OffersAt(code, st, l.r, i)[c] + MessageAt(code, st, l.r, c, i)
    && (keep ==> slot * Z + Z <= |t.sent| && At(t.sent, slot, i) == Quantize(q, MessageAt(code, st, l.r, c, i)))
  }

  lemma StepPosterior(code: Code, q: Quantizer, st: State, r: nat, c: nat, i: nat)
    requires ValidCode(code) && Shaped(code, st) && r < |code.table| && c < code.n && i < code.z
    requires code.table[r][c] >= 0
    ensures RowStep(code, q, st, r).lam[c][BitOf(i, code.table[r][c], code.z)]
         == OffersAt(code, st, r, i)[c] + MessageAt(code, st, r, c, i)
  {
    ShiftsAreRemainders(i, code.table[r][c], code.z);
  }

  lemma MessagesMatch(code: Code, st: State, cols: seq<nat>, vals: seq<real>, r: nat, k: nat, i: nat)
    requires ValidCode(code) && Shaped(code, st) && r < |code.table| && i < code.z
    requires 2 <= |vals| && k < |vals| && Lists(OffersAt(code, st, r, i), cols, vals)
    ensures cols[k] < code.n && code.table[r][cols[k]] >= 0
    ensures vals[k] == OffersAt(code, st, r, i)[cols[k]] && KernelMessage(vals, k) == MessageAt(code, st, r, cols[k], i)
  {
    KernelMessageIsTextbook(OffersAt(code, st, r, i), cols, vals, k);
    assert cols[k] in OffersAt(code, st, r, i);
  }

  lemma EdgeFollows(code: Code, q: Quantizer, st: State, cols: seq<nat>, keep: bool, t: Trace, vals: seq<real>,
                    l: Lane, rows: nat, batch: nat, k: nat, i: nat)
    requires ValidCode(code) && code.z == Z && Shaped(code, st) && l.r < |code.table|
    requires GroupShape(rows, batch) && l.rr < rows && l.b < batch && i < Z
    requires 2 <= |vals| && k < |vals| && Lists(OffersAt(code, st, l.r, i), cols, vals)
    requires PosteriorAt(t.post, vals, k, Slot(l.rr, l.b, batch) * Z + i, Lanes(rows, batch))
    requires keep ==> MessageStoredAt(t.sent, q, vals, k, Slot(l.rr, l.b, batch) * Z + i, Lanes(rows, batch))
    requires Slot(Slot(k, l.rr, rows), l.b, batch) * Z + Z <= |t.post|
    requires keep ==> Slot(Slot(k, l.rr, rows), l.b, batch) * Z + Z <= |t.sent|
    ensures EdgeComputed(code, q, st, cols[k], keep, t, l, rows, batch, k, i)
  {
    LanePosition(k, l.rr, l.b, i, rows, batch);
    MessagesMatch(code, st, cols, vals, l.r, k, i);
  }

  lemma LanePassed(q: Quantizer, keep: bool, t: Trace, deg: nat, lane: nat, lanes: nat, k: nat, i: nat)
    requires LaneCount(lanes) && lane < lanes && i < Z && 2 <= deg && k < deg && Holds(|t.ext|, deg, lanes)
    requires Posteriors(t.post, t.ext, deg, lanes) && (keep ==> MessagesStored(t.sent, q, t.ext, deg, lanes))
    ensures lane * Z + i < Stride(lanes)
    ensures PosteriorAt(t.post, ValuesAt(t.ext, deg, lanes, lane * Z + i), k, lane * Z + i, lanes)
    ensures keep ==> MessageStoredAt(t.sent, q, ValuesAt(t.ext, deg, lanes, lane * Z + i), k, lane * Z + i, lanes)
  {
  }

  lemma LaneComputes(code: Code, plan: Plan, q: Quantizer, st: State, cols: seq<nat>, cold: bool, keep: bool,
                     lam: seq<real>, gm: seq<int>, t: Trace, br: nat, deg: nat, off: nat, total: nat, l: Lane,
                     rows: nat, batch: nat, k: nat, i: nat)
    requires GroupShape(rows, batch)
    requires LaneGiven(code, plan, st, cols, cold, lam, gm, br, deg, off, total, l, rows, batch)
    requires 2 <= deg && Computed(t, plan, q, lam, gm, cold, keep, br, deg, off, total, rows, batch)
    requires keep ==> Slot(deg, 0, Lanes(rows, batch)) * Z <= |t.sent|
    requires k < deg && i < Z
    ensures EdgeComputed(code, q, st, cols[k], keep, t, l, rows, batch, k, i)
  {
    ValuesListOffers(code, plan, q, st, cols, cold, keep, lam, gm, t, br, deg, off, total, l, rows, batch, i);
    LaneSlotInside(k, deg, l.rr, l.b, rows, batch);
    LanePassed(q, keep, t, deg, Slot(l.rr, l.b, batch), Lanes(rows, batch), k, i);
    EdgeFollows(code, q, st, cols, keep, t, ValuesAt(t.ext, deg, Lanes(rows, batch), Slot(l.rr, l.b, batch) * Z + i),
                l, rows, batch, k, i);
  }
}
