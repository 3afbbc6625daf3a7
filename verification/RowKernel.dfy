/** One row group of the decoder: reload, gather, check nodes, store, scatter. */
module RowKernel {
  import opened LayeredDecoder
  import opened GraphPlan
  import opened ShiftKernel
  import opened GatherKernel
  import opened CheckKernel
  import opened MessageKernel

  /** On-chip buffers: resident posteriors, edge workspace, message workspace and scratch. */
  datatype Buffers = Buffers(lam: array<real>, ext: array<real>, mag: array<real>, scratch: Scratch)

  /** Buffers do not overlap and hold the group. */
  ghost predicate BuffersOk(bufs: Buffers, n: nat, deg: nat, rows: nat, batch: nat)
    requires GroupShape(rows, batch)
  {
    var s := bufs.scratch;
    && bufs.lam != bufs.ext && bufs.lam != bufs.mag && bufs.lam != s.sgn && bufs.lam != s.sign
    && bufs.lam != s.min1 && bufs.lam != s.min2
    && Apart(s, bufs.ext, bufs.mag, Slot(deg, 0, Lanes(rows, batch)) * Z, Lanes(rows, batch))
    && Roomy(n, deg, bufs.lam.Length, bufs.ext.Length, rows, batch)
  }

  /** Message buffers are of another element type than the posterior buffers. */
  ghost predicate IntsApart(bufs: Buffers, ub: array<int>) {
    && ub as object != bufs.lam && ub as object != bufs.ext && ub as object != bufs.mag
    && ub as object != bufs.scratch.sgn && ub as object != bufs.scratch.sign
    && ub as object != bufs.scratch.min1 && ub as object != bufs.scratch.min2
  }

  /** The old message of element e: zero on the cold pass, the stored one afterwards. */
  ghost predicate OldMessages(mag: seq<real>, ub: seq<int>, cold: bool, n: nat) {
    && n <= |mag|
    && (cold ==> forall e :: 0 <= e < n ==> mag[e] == 0.0)
    && (!cold ==> n <= |ub| && forall e :: 0 <= e < n ==> mag[e] == ub[e] as real)
  }

  /** Old messages: nothing to load on the first iteration, a strided reload afterwards. */
  method FetchMessages(mag: array<real>, ub: array<int>, gm: array<int>, cold: bool,
                       off: nat, deg: nat, total: nat, rows: nat, batch: nat)
    requires ub != gm && GroupShape(rows, batch) && GmRoom(gm.Length, ub.Length, off, deg, total, rows, batch)
    requires ub as object != mag && gm as object != mag
    requires Slot(deg, 0, Lanes(rows, batch)) * Z <= mag.Length
    modifies mag, ub
    ensures OldMessages(mag[..], ub[..], cold, Slot(deg, 0, Lanes(rows, batch)) * Z)
    ensures !cold ==> GroupHolds(ub[..], gm[..], off, deg, total, rows, batch)
  {
    var n := Slot(deg, 0, Lanes(rows, batch)) * Z;
    if cold {
      forall e | 0 <= e < n {
        mag[e] := 0.0;
      }
    } else {
      LoadGroup(ub, gm, off, deg, total, rows, batch);
      ghost var loaded, source := ub[..], gm[..];
      forall e | 0 <= e < n {
        mag[e] := ub[e] as real;
      }
      assert ub[..] == loaded && gm[..] == source;
    }
  }

  /** Snapshots of the workspace between the passes of one group. */
  datatype Trace = Trace(stored: seq<int>, gath: seq<real>, prev: seq<real>, ext: seq<real>, post: seq<real>,
                         sent: seq<int>)

  /** What a group computes from the posteriors lam and the messages in its slot. */
  ghost predicate ComputedFrom(t: Trace, plan: Plan, q: Quantizer, lam: seq<real>, cold: bool, keep: bool,
                               br: nat, deg: nat, rows: nat, batch: nat)
    requires GroupShape(rows, batch) && 2 <= deg
  {
    var lanes := Lanes(rows, batch);
    && (forall rr: nat :: rr < rows ==> GroupRowGathered(plan, cold, t.gath, lam, br, deg, rr, rows, batch))
    && OldMessages(t.prev, t.stored, cold, Slot(deg, 0, lanes) * Z)
    && Slot(deg, 0, lanes) * Z <= |t.gath| == |t.ext| && Slot(deg, 0, lanes) * Z <= |t.post|
    && (forall e :: 0 <= e < Slot(deg, 0, lanes) * Z ==> t.ext[e] == t.gath[e] - t.prev[e])
    && Posteriors(t.post, t.ext, deg, lanes)
    && (keep ==> MessagesStored(t.sent, q, t.ext, deg, lanes))
  }

  /** The same with the slot reloaded from the messages gm. */
  ghost predicate Computed(t: Trace, plan: Plan, q: Quantizer, lam: seq<real>, gm: seq<int>, cold: bool, keep: bool,
                           br: nat, deg: nat, off: nat, total: nat, rows: nat, batch: nat)
    requires GroupShape(rows, batch) && 2 <= deg
  {
    && ComputedFrom(t, plan, q, lam, cold, keep, br, deg, rows, batch)
    && (!cold ==> GroupHolds(t.stored, gm, off, deg, total, rows, batch))
  }

  /** How the group leaves the posteriors behind. */
  ghost predicate Scattered(t: Trace, order: seq<seq<nat>>, lam0: seq<real>, lam: seq<real>, br: nat, rows: nat,
                            batch: nat)
    requires GroupShape(rows, batch) && br + rows <= |order|
  {
    && (forall rr: nat :: rr < rows ==> GroupRowHolds(lam, order, t.post, br, rr, rows, batch))
    && OutsideGroupKept(lam, lam0, order, br, rows, batch) && |lam| == |lam0|
  }

  /** How it leaves posteriors and messages behind. */
  ghost predicate Written(t: Trace, order: seq<seq<nat>>, lam0: seq<real>, lam: seq<real>, gm0: seq<int>, gm: seq<int>,
                          keep: bool, br: nat, deg: nat, off: nat, total: nat, rows: nat, batch: nat)
    requires GroupShape(rows, batch) && br + rows <= |order|
  {
    && Scattered(t, order, lam0, lam, br, rows, batch)
    && (keep ==> GroupHolds(t.sent, gm, off, deg, total, rows, batch)
                 && OutsideKeptInGm(gm, gm0, off, deg, total, rows))
    && (!keep ==> gm == gm0)
  }

  method ComputeGroup(ghost code: Code, plan: Plan, ghost order: seq<seq<nat>>, q: Quantizer, cold: bool, keep: bool,
                      bufs: Buffers, ub: array<int>, gm: array<int>, br: nat, deg: nat, off: nat, total: nat,
                      rows: nat, batch: nat) returns (ghost t: Trace)
    requires GroupOf(code, plan, order, br, deg, rows) && GroupShape(rows, batch) && 2 <= deg
    requires BuffersOk(bufs, code.n, deg, rows, batch) && IntsApart(bufs, ub) && IntsApart(bufs, gm)
    requires ub != gm && GmRoom(gm.Length, ub.Length, off, deg, total, rows, batch)
    modifies bufs.ext, bufs.mag, bufs.scratch.sgn, bufs.scratch.sign, bufs.scratch.min1, bufs.scratch.min2, ub
    ensures Computed(t, plan, q, bufs.lam[..], gm[..], cold, keep, br, deg, off, total, rows, batch)
    ensures t.post == bufs.ext[..] && (keep ==> t.sent == ub[..])
  {
    var lanes := Lanes(rows, batch);
    FetchMessages(bufs.mag, ub, gm, cold, off, deg, total, rows, batch);
    ghost var stored, prev := ub[..], bufs.mag[..];
    GatherGroup(code, plan, order, cold, bufs.ext, bufs.lam, br, deg, rows, batch);
    ghost var gath := bufs.ext[..];
    ghost var ext0 := UpdatePosteriors(bufs.ext, bufs.mag, bufs.scratch, deg, lanes);
    if keep {
      StoreMessages(ub, q, bufs.mag, bufs.scratch.sgn, ext0, deg, lanes);
    }
    t := Trace(stored, gath, prev, ext0, bufs.ext[..], ub[..]);
  }

  method RowGroup(ghost code: Code, plan: Plan, ghost order: seq<seq<nat>>, q: Quantizer, cold: bool, keep: bool,
                  bufs: Buffers, ub: array<int>, gm: array<int>, br: nat, deg: nat, off: nat, total: nat, rows: nat,
                  batch: nat) returns (ghost t: Trace)
    requires GroupOf(code, plan, order, br, deg, rows) && GroupShape(rows, batch) && 2 <= deg
    requires BuffersOk(bufs, code.n, deg, rows, batch) && IntsApart(bufs, ub) && IntsApart(bufs, gm)
    requires ub != gm && GmRoom(gm.Length, ub.Length, off, deg, total, rows, batch)
    requires rows == 2 ==> NoCommon(order[br], order[br + 1])
    modifies bufs.lam, bufs.ext, bufs.mag, bufs.scratch.sgn, bufs.scratch.sign, bufs.scratch.min1, bufs.scratch.min2,
             ub, gm
    ensures keep ==> |t.sent| == ub.Length
    ensures Computed(t, plan, q, old(bufs.lam[..]), old(gm[..]), cold, keep, br, deg, off, total, rows, batch)
    ensures Written(t, order, old(bufs.lam[..]), bufs.lam[..], old(gm[..]), gm[..], keep, br, deg, off, total,
                    rows, batch)
  {
    t := ComputeGroup(code, plan, order, q, cold, keep, bufs, ub, gm, br, deg, off, total, rows, batch);
    if keep {
      StoreGroup(gm, ub, off, deg, total, rows, batch);
    }
    ghost var messages := gm[..];
    assert bufs.ext[..] == t.post;
    ScatterGroup(code, plan, order, bufs.lam, bufs.ext, br, deg, rows, batch);
    assert bufs.ext[..] == t.post && gm[..] == messages;
  }
}
