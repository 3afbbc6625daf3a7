/**
 Messages between iterations. Global memory keeps each code block's messages row after row, one slot
 per edge; the on-chip message slot interleaves [edge][row][lane][z]. Strided copies convert.
 */
module MessageKernel {
  import opened ShiftKernel
  import opened GatherKernel

  function Lanes(rows: nat, batch: nat): (w: nat)
    requires GroupShape(rows, batch)
    ensures LaneCount(w)
  {
    Slot(rows, 0, batch)
  }

  /** First message slot of row rr of the group for code block b: total slots per block, off before the group. */
  function GmBase(b: nat, rr: nat, off: nat, deg: nat, total: nat): nat {
    (if b == 0 then 0 else total) + off + (if rr == 0 then 0 else deg)
  }

  function LaneIndex(slot: nat, lanes: nat): nat {
    if lanes == 1 then 0 else if lanes == 2 then slot % 2 else slot % 4
  }

  /** One lane of the message slot holds deg consecutive slots of global memory. */
  ghost predicate LaneHolds(ub: seq<int>, gm: seq<int>, lane: nat, base: nat, deg: nat, lanes: nat)
    requires LaneCount(lanes)
  {
    && (base + deg) * Z <= |gm| && Slot(deg, 0, lanes) * Z <= |ub| && lane < lanes
    && forall k: nat, i: nat :: k < deg && i < Z ==> At(ub, Slot(k, lane, lanes), i) == At(gm, base + k, i)
  }

  ghost predicate OtherLanesKept(now: seq<int>, was: seq<int>, lane: nat, lanes: nat) {
    && |now| == |was|
    && forall slot: nat, i: nat :: i < Z && slot * Z + Z <= |was| && LaneIndex(slot, lanes) != lane ==>
         At(now, slot, i) == At(was, slot, i)
  }

  ghost predicate SlotsKept(now: seq<int>, was: seq<int>, lo: nat, hi: nat) {
    && |now| == |was|
    && forall slot: nat, i: nat :: i < Z && slot * Z + Z <= |was| && !(lo <= slot < hi) ==>
         At(now, slot, i) == At(was, slot, i)
  }

  /** Load one row of one code block: deg runs of Z, spread lanes slots apart. */
  method LoadLane(ub: array<int>, gm: array<int>, lane: nat, base: nat, deg: nat, lanes: nat)
    requires ub != gm && LaneCount(lanes) && lane < lanes
    requires (base + deg) * Z <= gm.Length && Slot(deg, 0, lanes) * Z <= ub.Length
    modifies ub
    ensures LaneHolds(ub[..], gm[..], lane, base, deg, lanes)
    ensures OtherLanesKept(ub[..], old(ub[..]), lane, lanes)
  {
    ghost var was := ub[..];
    for kk := 0 to deg
      invariant LaneHolds(ub[..], gm[..], lane, base, kk, lanes)
      invariant OtherLanesKept(ub[..], was, lane, lanes)
    {
      LoadEdge(ub, gm, lane, base, kk, lanes, was);
    }
  }

  /** One run of Z. */
  method LoadEdge(ub: array<int>, gm: array<int>, lane: nat, base: nat, kk: nat, lanes: nat, ghost was: seq<int>)
    requires ub != gm && LaneCount(lanes) && lane < lanes
    requires (base + kk + 1) * Z <= gm.Length && Slot(kk + 1, 0, lanes) * Z <= ub.Length
    requires LaneHolds(ub[..], gm[..], lane, base, kk, lanes) && OtherLanesKept(ub[..], was, lane, lanes)
    modifies ub
    ensures LaneHolds(ub[..], gm[..], lane, base, kk + 1, lanes) && OtherLanesKept(ub[..], was, lane, lanes)
  {
    ghost var mid, source := ub[..], gm[..];
    CopyRun(ub, Slot(kk, lane, lanes), 0, gm, base + kk, 0, Z);
    EdgeLoaded(mid, ub[..], was, source, lane, base, kk, lanes);
  }

  lemma EdgeLoaded(mid: seq<int>, now: seq<int>, was: seq<int>, gm: seq<int>, lane: nat, base: nat, kk: nat, lanes: nat)
    requires LaneCount(lanes) && lane < lanes && |now| == |mid|
    requires (base + kk + 1) * Z <= |gm| && Slot(kk + 1, 0, lanes) * Z <= |mid|
    requires LaneHolds(mid, gm, lane, base, kk, lanes) && OtherLanesKept(mid, was, lane, lanes)
    requires forall i: nat :: 0 <= i < Z ==> At(now, Slot(kk, lane, lanes), i) == At(gm, base + kk, i)
    requires forall u: nat, i: nat :: i < Z && u * Z + Z <= |mid| && u != Slot(kk, lane, lanes) ==>
             At(now, u, i) == At(mid, u, i)
    ensures LaneHolds(now, gm, lane, base, kk + 1, lanes) && OtherLanesKept(now, was, lane, lanes)
  {
  }

  /** Store one row of one code block back to its contiguous place. */
  method StoreLane(gm: array<int>, ub: array<int>, lane: nat, base: nat, deg: nat, lanes: nat)
    requires ub != gm && LaneCount(lanes) && lane < lanes
    requires (base + deg) * Z <= gm.Length && Slot(deg, 0, lanes) * Z <= ub.Length
    modifies gm
    ensures LaneHolds(ub[..], gm[..], lane, base, deg, lanes)
    ensures SlotsKept(gm[..], old(gm[..]), base, base + deg)
  {
    for kk := 0 to deg
      invariant forall k: nat, i: nat :: k < kk && i < Z ==>
                At(ub[..], Slot(k, lane, lanes), i) == At(gm[..], base + k, i)
      invariant SlotsKept(gm[..], old(gm[..]), base, base + kk)
    {
      CopyRun(gm, base + kk, 0, ub, Slot(kk, lane, lanes), 0, Z);
    }
  }

  /** Room for both code blocks' messages and for the group's rows within one block. */
  predicate GmRoom(gmLen: nat, ubLen: nat, off: nat, deg: nat, total: nat, rows: nat, batch: nat)
    requires GroupShape(rows, batch)
  {
    && off + (if rows == 1 then deg else 2 * deg) <= total
    && (if batch == 1 then total else 2 * total) * Z <= gmLen
    && Slot(deg, 0, Lanes(rows, batch)) * Z <= ubLen
  }

  ghost predicate GroupLaneHolds(ub: seq<int>, gm: seq<int>, off: nat, deg: nat, total: nat,
                                 rr: nat, b: nat, rows: nat, batch: nat)
    requires GroupShape(rows, batch)
  {
    LaneHolds(ub, gm, Slot(rr, b, batch), GmBase(b, rr, off, deg, total), deg, Lanes(rows, batch))
  }

  /** The message slot and global memory agree on the whole group. */
  ghost predicate GroupHolds(ub: seq<int>, gm: seq<int>, off: nat, deg: nat, total: nat, rows: nat, batch: nat)
    requires GroupShape(rows, batch)
  {
    forall rr: nat, b: nat :: rr < rows && b < batch ==> GroupLaneHolds(ub, gm, off, deg, total, rr, b, rows, batch)
  }

  /** Lanes before (rr, b) in the copy order. */
  predicate Before(rr': nat, b': nat, rr: nat, b: nat) {
    rr' < rr || (rr' == rr && b' < b)
  }

  ghost predicate HoldsBefore(ub: seq<int>, gm: seq<int>, off: nat, deg: nat, total: nat,
                              rr: nat, b: nat, rows: nat, batch: nat)
    requires GroupShape(rows, batch)
  {
    forall rr': nat, b': nat :: rr' < rows && b' < batch && Before(rr', b', rr, b) ==>
      GroupLaneHolds(ub, gm, off, deg, total, rr', b', rows, batch)
  }

  lemma LoadKeepsLane(ub0: seq<int>, ub: seq<int>, gm: seq<int>, lane: nat, lane': nat, base: nat, deg: nat, lanes: nat)
    requires LaneCount(lanes) && lane < lanes && lane' != lane
    requires OtherLanesKept(ub, ub0, lane, lanes) && LaneHolds(ub0, gm, lane', base, deg, lanes)
    ensures LaneHolds(ub, gm, lane', base, deg, lanes)
  {
  }

  lemma StoreKeepsLane(ub: seq<int>, gm0: seq<int>, gm: seq<int>, lane: nat, base: nat, lo: nat, hi: nat, deg: nat,
                       lanes: nat)
    requires LaneCount(lanes) && SlotsKept(gm, gm0, lo, hi) && (base + deg <= lo || hi <= base)
    requires LaneHolds(ub, gm0, lane, base, deg, lanes)
    ensures LaneHolds(ub, gm, lane, base, deg, lanes)
  {
  }

  lemma LoadStep(ub0: seq<int>, ub: seq<int>, gm: seq<int>, off: nat, deg: nat, total: nat, rr: nat, b: nat,
                 rows: nat, batch: nat)
    requires GroupShape(rows, batch) && rr < rows && b < batch
    requires OtherLanesKept(ub, ub0, Slot(rr, b, batch), Lanes(rows, batch))
    requires GroupLaneHolds(ub, gm, off, deg, total, rr, b, rows, batch)
    requires HoldsBefore(ub0, gm, off, deg, total, rr, b, rows, batch)
    ensures HoldsBefore(ub, gm, off, deg, total, rr, b + 1, rows, batch)
  {
    forall rr': nat, b': nat | rr' < rows && b' < batch && Before(rr', b', rr, b + 1)
      ensures GroupLaneHolds(ub, gm, off, deg, total, rr', b', rows, batch)
    {
      if Before(rr', b', rr, b) {
        assert GroupLaneHolds(ub0, gm, off, deg, total, rr', b', rows, batch);
        LoadKeepsLane(ub0, ub, gm, Slot(rr, b, batch), Slot(rr', b', batch), GmBase(b', rr', off, deg, total), deg,
                      Lanes(rows, batch));
      }
    }
  }

  lemma StoreStep(ub: seq<int>, gm0: seq<int>, gm: seq<int>, off: nat, deg: nat, total: nat, rr: nat, b: nat,
                  rows: nat, batch: nat)
    requires GroupShape(rows, batch) && rr < rows && b < batch && off + (if rows == 1 then deg else 2 * deg) <= total
    requires SlotsKept(gm, gm0, GmBase(b, rr, off, deg, total), GmBase(b, rr, off, deg, total) + deg)
    requires GroupLaneHolds(ub, gm, off, deg, total, rr, b, rows, batch)
    requires HoldsBefore(ub, gm0, off, deg, total, rr, b, rows, batch)
    ensures HoldsBefore(ub, gm, off, deg, total, rr, b + 1, rows, batch)
  {
    var lo := GmBase(b, rr, off, deg, total);
    forall rr': nat, b': nat | rr' < rows && b' < batch && Before(rr', b', rr, b + 1)
      ensures GroupLaneHolds(ub, gm, off, deg, total, rr', b', rows, batch)
    {
      if Before(rr', b', rr, b) {
        assert GroupLaneHolds(ub, gm0, off, deg, total, rr', b', rows, batch);
        StoreKeepsLane(ub, gm0, gm, Slot(rr', b', batch), GmBase(b', rr', off, deg, total), lo, lo + deg, deg,
                       Lanes(rows, batch));
      }
    }
  }

  /** Reload the group's messages of the previous iteration. */
  method LoadGroup(ub: array<int>, gm: array<int>, off: nat, deg: nat, total: nat, rows: nat, batch: nat)
    requires ub != gm && GroupShape(rows, batch) && GmRoom(gm.Length, ub.Length, off, deg, total, rows, batch)
    modifies ub
    ensures GroupHolds(ub[..], gm[..], off, deg, total, rows, batch)
  {
    for rr := 0 to rows
      invariant HoldsBefore(ub[..], gm[..], off, deg, total, rr, 0, rows, batch)
    {
      for b := 0 to batch
        invariant HoldsBefore(ub[..], gm[..], off, deg, total, rr, b, rows, batch)
      {
        ghost var was := ub[..];
        LoadLane(ub, gm, Slot(rr, b, batch), GmBase(b, rr, off, deg, total), deg, Lanes(rows, batch));
        LoadStep(was, ub[..], gm[..], off, deg, total, rr, b, rows, batch);
      }
    }
  }

  /** Slots of the group's rows in either code block. */
  predicate InGroup(slot: nat, off: nat, deg: nat, total: nat, rows: nat) {
    var len := if rows == 1 then deg else 2 * deg;
    off <= slot < off + len || total + off <= slot < total + off + len
  }

  ghost predicate OutsideKeptInGm(now: seq<int>, was: seq<int>, off: nat, deg: nat, total: nat, rows: nat) {
    && |now| == |was|
    && forall slot: nat, i: nat :: i < Z && slot * Z + Z <= |was| && !InGroup(slot, off, deg, total, rows) ==>
         At(now, slot, i) == At(was, slot, i)
  }

  /** Keep the group's messages for the next iteration. */
  method StoreGroup(gm: array<int>, ub: array<int>, off: nat, deg: nat, total: nat, rows: nat, batch: nat)
    requires ub != gm && GroupShape(rows, batch) && GmRoom(gm.Length, ub.Length, off, deg, total, rows, batch)
    modifies gm
    ensures GroupHolds(ub[..], gm[..], off, deg, total, rows, batch)
    ensures OutsideKeptInGm(gm[..], old(gm[..]), off, deg, total, rows)
  {
    for rr := 0 to rows
      invariant HoldsBefore(ub[..], gm[..], off, deg, total, rr, 0, rows, batch)
      invariant OutsideKeptInGm(gm[..], old(gm[..]), off, deg, total, rows)
    {
      for b := 0 to batch
        invariant HoldsBefore(ub[..], gm[..], off, deg, total, rr, b, rows, batch)
        invariant OutsideKeptInGm(gm[..], old(gm[..]), off, deg, total, rows)
      {
        ghost var was := gm[..];
        StoreLane(gm, ub, Slot(rr, b, batch), GmBase(b, rr, off, deg, total), deg, Lanes(rows, batch));
        StoreStep(ub[..], was, gm[..], off, deg, total, rr, b, rows, batch);
      }
    }
  }
}
