/**
 The decoder kernel's buffers with asynchronous message stores. Posteriors, the two message slots and global
 memory are the kernel's; a store may finish at any time after it was issued. What global memory would hold if
 all running stores had finished is what the kernel with synchronous stores works on.
 */
module PipedKernel {
  import opened LayeredDecoder
  import opened GraphPlan
  import opened ShiftKernel
  import opened GatherKernel
  import opened MessageKernel
  import opened RowKernel
  import opened GroupRefinement
  import opened DecodeKernel
  import opened MessagePipe
  import opened PipedDecoder

  // ---------- regions of global memory ----------

  /** Where a row group's messages are: deg slots for each of its rows from slot off on, in either code block. */
  datatype Region = Region(off: nat, deg: nat, rows: nat)

  function Len(r: Region): nat {
    if r.rows == 1 then r.deg else 2 * r.deg
  }

  predicate RegionOk(r: Region, total: nat, batch: nat) {
    GroupShape(r.rows, batch) && r.off + Len(r) <= total
  }

  predicate Memory(gm: seq<int>, total: nat, batch: nat) {
    |gm| == (if batch == 1 then total else 2 * total) * Z
  }

  predicate In(slot: nat, r: Region, total: nat) {
    InGroup(slot, r.off, r.deg, total, r.rows)
  }

  ghost predicate Holds(ub: seq<int>, gm: seq<int>, r: Region, total: nat, batch: nat)
    requires GroupShape(r.rows, batch)
  {
    GroupHolds(ub, gm, r.off, r.deg, total, r.rows, batch)
  }

  ghost predicate Kept(now: seq<int>, was: seq<int>, r: Region, total: nat) {
    OutsideKeptInGm(now, was, r.off, r.deg, total, r.rows)
  }

  ghost predicate SameAt(a: seq<int>, b: seq<int>, slot: nat) {
    && |a| == |b| && slot * Z + Z <= |a|
    && forall i: nat :: i < Z ==> At(a, slot, i) == At(b, slot, i)
  }

  ghost predicate SameOn(a: seq<int>, b: seq<int>, r: Region, total: nat) {
    |a| == |b| && forall slot: nat :: slot * Z + Z <= |a| && In(slot, r, total) ==> SameAt(a, b, slot)
  }

  /** Two memories that agree on the region hold the same group. */
  lemma HoldsMoves(ub: seq<int>, gm: seq<int>, v: seq<int>, r: Region, total: nat, batch: nat)
    requires RegionOk(r, total, batch) && Holds(ub, gm, r, total, batch) && SameOn(gm, v, r, total)
    ensures Holds(ub, v, r, total, batch)
  {
    forall rr: nat, b: nat | rr < r.rows && b < batch
      ensures GroupLaneHolds(ub, v, r.off, r.deg, total, rr, b, r.rows, batch)
    {
      assert GroupLaneHolds(ub, gm, r.off, r.deg, total, rr, b, r.rows, batch);
      LaneMoves(ub, gm, v, r, total, rr, b, batch);
    }
  }

  lemma LaneMoves(ub: seq<int>, gm: seq<int>, v: seq<int>, r: Region, total: nat, rr: nat, b: nat, batch: nat)
    requires RegionOk(r, total, batch) && rr < r.rows && b < batch && SameOn(gm, v, r, total)
    requires GroupLaneHolds(ub, gm, r.off, r.deg, total, rr, b, r.rows, batch)
    ensures GroupLaneHolds(ub, v, r.off, r.deg, total, rr, b, r.rows, batch)
  {
    var lane, base, lanes := Slot(rr, b, batch), GmBase(b, rr, r.off, r.deg, total), Lanes(r.rows, batch);
    forall k: nat, i: nat | k < r.deg && i < Z
      ensures At(ub, Slot(k, lane, lanes), i) == At(v, base + k, i)
    {
      var slot := base + k;
      assert In(slot, r, total);
      assert SameAt(gm, v, slot);
    }
  }

  /** Code block, row and edge of a slot in the region. */
  lemma SlotOwner(slot: nat, r: Region, total: nat, batch: nat, gm: seq<int>) returns (rr: nat, b: nat, k: nat)
    requires RegionOk(r, total, batch) && Memory(gm, total, batch) && slot * Z + Z <= |gm| && In(slot, r, total)
    ensures rr < r.rows && b < batch && k < r.deg && slot == GmBase(b, rr, r.off, r.deg, total) + k
  {
    b := if slot < total then 0 else 1;
    var inside: nat := slot - r.off - (if b == 0 then 0 else total);
    rr := if inside < r.deg then 0 else 1;
    k := if inside < r.deg then inside else inside - r.deg;
  }

  /** Two memories that hold the same slot contents for the group agree on its region. */
  lemma HoldsFixes(ub: seq<int>, gm: seq<int>, v: seq<int>, r: Region, total: nat, batch: nat)
    requires RegionOk(r, total, batch) && Memory(gm, total, batch) && |v| == |gm|
    requires Holds(ub, gm, r, total, batch) && Holds(ub, v, r, total, batch)
    ensures SameOn(gm, v, r, total)
  {
    forall slot: nat | slot * Z + Z <= |gm| && In(slot, r, total)
      ensures SameAt(gm, v, slot)
    {
      var rr, b, k := SlotOwner(slot, r, total, batch, gm);
      assert GroupLaneHolds(ub, gm, r.off, r.deg, total, rr, b, r.rows, batch);
      assert GroupLaneHolds(ub, v, r.off, r.deg, total, rr, b, r.rows, batch);
      var lane, lanes := Slot(rr, b, batch), Lanes(r.rows, batch);
      forall i: nat | i < Z
        ensures At(gm, slot, i) == At(v, slot, i)
      {
        assert At(ub, Slot(k, lane, lanes), i) == At(gm, slot, i);
        assert At(ub, Slot(k, lane, lanes), i) == At(v, slot, i);
      }
    }
  }

  /** Regions one after the other do not meet. */
  lemma RegionsApart(r: Region, r': Region, slot: nat, total: nat, batch: nat)
    requires RegionOk(r, total, batch) && RegionOk(r', total, batch) && r.off + Len(r) <= r'.off
    ensures !(In(slot, r, total) && In(slot, r', total))
  {
  }

  /** The value that storing the slot puts at position p of memory. */
  function StoredAt(sent: seq<int>, was: int, r: Region, total: nat, batch: nat, slot: nat, i: nat): int
    requires RegionOk(r, total, batch) && Slot(r.deg, 0, Lanes(r.rows, batch)) * Z <= |sent| && i < Z
  {
    var b := if slot < total then 0 else 1;
    var from := r.off + if b == 0 then 0 else total;
    if b < batch && from <= slot < from + Len(r) then
      var inside: nat := slot - from;
      var rr := if inside < r.deg then 0 else 1;
      var k: nat := if inside < r.deg then inside else inside - r.deg;
      StrideInside(k, rr, b, r, batch);
      At(sent, Slot(k, Slot(rr, b, batch), Lanes(r.rows, batch)), i)
    else was
  }

  lemma StrideInside(k: nat, rr: nat, b: nat, r: Region, batch: nat)
    requires GroupShape(r.rows, batch) && k < r.deg && rr < r.rows && b < batch
    ensures Slot(k, Slot(rr, b, batch), Lanes(r.rows, batch)) * Z + Z <= Slot(r.deg, 0, Lanes(r.rows, batch)) * Z
  {
  }

  /** A slot can always be stored. */
  lemma StoreExists(v: seq<int>, sent: seq<int>, r: Region, total: nat, batch: nat) returns (v': seq<int>)
    requires RegionOk(r, total, batch) && Memory(v, total, batch)
    requires Slot(r.deg, 0, Lanes(r.rows, batch)) * Z <= |sent|
    ensures Holds(sent, v', r, total, batch) && Kept(v', v, r, total)
  {
    v' := seq(|v|, p requires 0 <= p < |v| => StoredAt(sent, v[p], r, total, batch, p / Z, p % Z));
    forall rr: nat, b: nat | rr < r.rows && b < batch
      ensures GroupLaneHolds(sent, v', r.off, r.deg, total, rr, b, r.rows, batch)
    {
      LaneStored(v, v', sent, r, total, batch, rr, b);
    }
    forall slot: nat, i: nat | i < Z && slot * Z + Z <= |v| && !In(slot, r, total)
      ensures At(v', slot, i) == At(v, slot, i)
    {
      assert (slot * Z + i) / Z == slot && (slot * Z + i) % Z == i;
    }
  }

  lemma LaneStored(v: seq<int>, v': seq<int>, sent: seq<int>, r: Region, total: nat, batch: nat, rr: nat, b: nat)
    requires RegionOk(r, total, batch) && Memory(v, total, batch) && |v'| == |v| && rr < r.rows && b < batch
    requires Slot(r.deg, 0, Lanes(r.rows, batch)) * Z <= |sent|
    requires forall p: nat :: p < |v| ==> v'[p] == StoredAt(sent, v[p], r, total, batch, p / Z, p % Z)
    ensures GroupLaneHolds(sent, v', r.off, r.deg, total, rr, b, r.rows, batch)
  {
    var lane, base, lanes := Slot(rr, b, batch), GmBase(b, rr, r.off, r.deg, total), Lanes(r.rows, batch);
    LaneFits(r, total, batch, rr, b);
    forall k: nat, i: nat | k < r.deg && i < Z
      ensures At(sent, Slot(k, lane, lanes), i) == At(v', base + k, i)
    {
      var slot := base + k;
      var p := slot * Z + i;
      SplitPosition(slot, i);
      StoredValue(sent, v[p], r, total, batch, rr, b, k, slot, i);
    }
  }

  lemma SplitPosition(slot: nat, i: nat)
    requires i < Z
    ensures (slot * Z + i) / Z == slot && (slot * Z + i) % Z == i
  {
  }

  lemma LaneFits(r: Region, total: nat, batch: nat, rr: nat, b: nat)
    requires RegionOk(r, total, batch) && rr < r.rows && b < batch
    ensures GmBase(b, rr, r.off, r.deg, total) + r.deg <= if batch == 1 then total else 2 * total
  {
  }

  lemma StoredValue(sent: seq<int>, was: int, r: Region, total: nat, batch: nat, rr: nat, b: nat, k: nat, slot: nat,
                    i: nat)
    requires RegionOk(r, total, batch) && Slot(r.deg, 0, Lanes(r.rows, batch)) * Z <= |sent| && i < Z
    requires rr < r.rows && b < batch && k < r.deg && slot == GmBase(b, rr, r.off, r.deg, total) + k
    ensures Slot(k, Slot(rr, b, batch), Lanes(r.rows, batch)) * Z + Z <= |sent|
    ensures StoredAt(sent, was, r, total, batch, slot, i)
         == At(sent, Slot(k, Slot(rr, b, batch), Lanes(r.rows, batch)), i)
  {
    StrideInside(k, rr, b, r, batch);
    assert b == if slot < total then 0 else 1;
  }

  // ---------- memory with all running stores finished ----------

  /** One region per group, one after the other. */
  ghost predicate RegionsOk(regions: seq<Region>, total: nat, batch: nat) {
    && (forall h: nat :: h < |regions| ==> RegionOk(regions[h], total, batch))
    && forall g: nat, h: nat :: g < h < |regions| ==> Before(regions[g], regions[h])
  }

  predicate Before(r: Region, r': Region) {
    r.off + Len(r) <= r'.off
  }

  /** Slot s of the message buffer is to be stored, or being stored, for owner[s]. */
  ghost predicate Belongs(regions: seq<Region>, owner: seq<Option<nat>>, s: nat, slot: nat, total: nat) {
    s < |owner| && owner[s].Some? && owner[s].value < |regions| && In(slot, regions[owner[s].value], total)
  }

  ghost predicate OwnerHolds(regions: seq<Region>, total: nat, batch: nat, ub: seq<seq<int>>, v: seq<int>,
                             owner: seq<Option<nat>>, s: nat)
    requires RegionsOk(regions, total, batch) && s < |ub| && s < |owner|
  {
    owner[s].Some? ==>
      && owner[s].value < |regions| && SlotOf(owner[s].value) == s
      && Holds(ub[s], v, regions[owner[s].value], total, batch)
  }

  ghost predicate Untouched(regions: seq<Region>, total: nat, gm: seq<int>, v: seq<int>, owner: seq<Option<nat>>,
                            slot: nat)
  {
    !Belongs(regions, owner, 0, slot, total) && !Belongs(regions, owner, 1, slot, total) ==> SameAt(gm, v, slot)
  }

  /** v is what memory gm will hold when the owned slots have been stored. */
  ghost predicate Virtual(regions: seq<Region>, total: nat, batch: nat, ub: seq<seq<int>>, gm: seq<int>, v: seq<int>,
                          owner: seq<Option<nat>>)
    requires RegionsOk(regions, total, batch)
  {
    && |ub| == |owner| == 2 && |gm| == |v| && Memory(gm, total, batch)
    && OwnerHolds(regions, total, batch, ub, v, owner, 0) && OwnerHolds(regions, total, batch, ub, v, owner, 1)
    && forall slot: nat :: slot * Z + Z <= |gm| ==> Untouched(regions, total, gm, v, owner, slot)
  }

  lemma GroupsApart(regions: seq<Region>, total: nat, batch: nat, g: nat, h: nat, slot: nat)
    requires RegionsOk(regions, total, batch) && g < |regions| && h < |regions| && g != h
    ensures !(In(slot, regions[g], total) && In(slot, regions[h], total))
  {
    if g < h {
      assert Before(regions[g], regions[h]);
      RegionsApart(regions[g], regions[h], slot, total, batch);
    } else {
      assert Before(regions[h], regions[g]);
      RegionsApart(regions[h], regions[g], slot, total, batch);
    }
  }

  /** A group whose slot is free finds in memory what it will hold. */
  lemma FreeRegionSame(regions: seq<Region>, total: nat, batch: nat, ub: seq<seq<int>>, gm: seq<int>, v: seq<int>,
                       owner: seq<Option<nat>>, g: nat)
    requires RegionsOk(regions, total, batch) && Virtual(regions, total, batch, ub, gm, v, owner)
    requires g < |regions| && owner[SlotOf(g)].None?
    ensures SameOn(gm, v, regions[g], total)
  {
    forall slot: nat | slot * Z + Z <= |gm| && In(slot, regions[g], total)
      ensures SameAt(gm, v, slot)
    {
      var other := 1 - SlotOf(g);
      if owner[other].Some? {
        GroupsApart(regions, total, batch, g, owner[other].value, slot);
      }
      assert Untouched(regions, total, gm, v, owner, slot);
    }
  }

  /** A reload into a free slot. */
  lemma LoadVirtual(regions: seq<Region>, total: nat, batch: nat, ub: seq<seq<int>>, gm: seq<int>, v: seq<int>,
                    owner: seq<Option<nat>>, g: nat, x: seq<int>)
    requires RegionsOk(regions, total, batch) && Virtual(regions, total, batch, ub, gm, v, owner)
    requires g < |regions| && owner[SlotOf(g)].None? && Holds(x, gm, regions[g], total, batch)
    ensures Virtual(regions, total, batch, ub[SlotOf(g) := x], gm, v, owner)
    ensures Holds(x, v, regions[g], total, batch)
  {
    FreeRegionSame(regions, total, batch, ub, gm, v, owner, g);
    HoldsMoves(x, gm, v, regions[g], total, batch);
  }

  /** New messages in a free slot: from now on memory will hold them. */
  lemma CastVirtual(regions: seq<Region>, total: nat, batch: nat, ub: seq<seq<int>>, gm: seq<int>, v: seq<int>,
                    owner: seq<Option<nat>>, g: nat, sent: seq<int>, v': seq<int>)
    requires RegionsOk(regions, total, batch) && Virtual(regions, total, batch, ub, gm, v, owner)
    requires g < |regions| && owner[SlotOf(g)].None?
    requires Holds(sent, v', regions[g], total, batch) && Kept(v', v, regions[g], total)
    ensures Virtual(regions, total, batch, ub[SlotOf(g) := sent], gm, v', owner[SlotOf(g) := Some(g)])
  {
    var s := SlotOf(g);
    var other := 1 - s;
    var owner' := owner[s := Some(g)];
    if owner[other].Some? {
      var h := owner[other].value;
      KeptElsewhere(regions, total, batch, v, v', g, h);
      HoldsMoves(ub[other], v, v', regions[h], total, batch);
    }
    forall slot: nat | slot * Z + Z <= |gm|
      ensures Untouched(regions, total, gm, v', owner', slot)
    {
      assert Untouched(regions, total, gm, v, owner, slot);
      if !Belongs(regions, owner', s, slot, total) {
        KeptAt(v, v', regions[g], total, slot);
      }
    }
  }

  lemma KeptAt(v: seq<int>, v': seq<int>, r: Region, total: nat, slot: nat)
    requires Kept(v', v, r, total) && slot * Z + Z <= |v| && !In(slot, r, total)
    ensures SameAt(v, v', slot)
  {
  }

  lemma KeptElsewhere(regions: seq<Region>, total: nat, batch: nat, v: seq<int>, v': seq<int>, g: nat, h: nat)
    requires RegionsOk(regions, total, batch) && g < |regions| && h < |regions| && g != h
    requires Kept(v', v, regions[g], total)
    ensures SameOn(v, v', regions[h], total)
  {
    forall slot: nat | slot * Z + Z <= |v| && In(slot, regions[h], total)
      ensures SameAt(v, v', slot)
    {
      GroupsApart(regions, total, batch, g, h, slot);
      KeptAt(v, v', regions[g], total, slot);
    }
  }

  /** A running store finishes: what memory will hold stays. */
  lemma CompleteVirtual(regions: seq<Region>, total: nat, batch: nat, ub: seq<seq<int>>, gm: seq<int>, gm': seq<int>,
                        v: seq<int>, owner: seq<Option<nat>>, s: nat)
    requires RegionsOk(regions, total, batch) && Virtual(regions, total, batch, ub, gm, v, owner)
    requires s < 2 && owner[s].Some? && owner[s].value < |regions|
    requires Holds(ub[s], gm', regions[owner[s].value], total, batch) && Kept(gm', gm, regions[owner[s].value], total)
    ensures Virtual(regions, total, batch, ub, gm', v, owner[s := None])
  {
    var r := regions[owner[s].value];
    var owner' := owner[s := None];
    HoldsFixes(ub[s], gm', v, r, total, batch);
    forall slot: nat | slot * Z + Z <= |gm'|
      ensures Untouched(regions, total, gm', v, owner', slot)
    {
      assert Untouched(regions, total, gm, v, owner, slot);
      if In(slot, r, total) {
        assert SameAt(gm', v, slot);
      } else {
        KeptAt(gm, gm', r, total, slot);
      }
    }
  }

  // ---------- the kernel's groups ----------

  /** What the kernel is built with. */
  datatype Build = Build(code: Code, plan: Plan, order: seq<seq<nat>>, q: Quantizer, batch: nat)

  ghost predicate BuildOk(m: Build) {
    Launch(m.code, m.plan, m.order) && (m.batch == 1 || m.batch == 2)
  }

  /** First rows of the groups, and the number of rows. */
  function Starts(m: Build): (starts: seq<nat>)
    ensures |starts| >= 1
  {
    KernelStarts(|m.code.table|, 0)
  }

  lemma {:induction false} KernelRows(rows: nat, br: nat, g: nat)
    requires g + 1 < |KernelStarts(rows, br)|
    ensures var starts := KernelStarts(rows, br);
            starts[g + 1] == starts[g] + if FuseNextRow(starts[g]) then 2 else 1
    decreases g
  {
    if g > 0 {
      KernelRows(rows, br + if FuseNextRow(br) then 2 else 1, g - 1);
    }
  }

  function RegionOf(m: Build, g: nat): Region
    requires g + 1 < |Starts(m)| && Starts(m)[g] < Starts(m)[g + 1] && Starts(m)[g] < |m.order|
  {
    var br := Starts(m)[g];
    Region(EdgesBefore(m.order, br), |m.order[br]|, Starts(m)[g + 1] - br)
  }

  /** Group g begins at row br, has rows rows, and its messages end where the next group's begin. */
  lemma GroupIs(m: Build, g: nat)
    requires BuildOk(m) && g + 1 < |Starts(m)|
    ensures GroupOk(m.code, Starts(m), g) && |m.order| == |m.code.table|
    ensures var br, next := Starts(m)[g], Starts(m)[g + 1];
            && next == br + (if FuseNextRow(br) then 2 else 1)
            && GroupOf(m.code, m.plan, m.order, br, |m.order[br]|, next - br)
            && 2 <= |m.order[br]| && (next - br == 2 ==> NoCommon(m.order[br], m.order[br + 1]))
            && Len(RegionOf(m, g)) <= MAX_DEG
            && EdgesBefore(m.order, next) == EdgesBefore(m.order, br) + Len(RegionOf(m, g))
  {
    KernelTiles(m.code);
    assert GroupOk(m.code, Starts(m), g);
    KernelRows(|m.code.table|, 0, g);
    var br := Starts(m)[g];
    GroupShapes(m.code, m.plan, m.order, br);
    assert EdgesBefore(m.order, br + 1) == EdgesBefore(m.order, br) + |m.order[br]|;
  }

  lemma {:induction false} StartsGrow(m: Build, g: nat, h: nat)
    requires BuildOk(m) && g <= h < |Starts(m)|
    ensures Starts(m)[g] <= Starts(m)[h] <= |m.order|
  {
    KernelTiles(m.code);
    if g < h {
      StartsGrow(m, g, h - 1);
      GroupIs(m, h - 1);
    } else if h > 0 {
      GroupIs(m, h - 1);
    }
  }

  ghost function Regions(m: Build): (regions: seq<Region>)
    requires BuildOk(m)
    ensures |regions| == |Starts(m)| - 1
    ensures forall g: nat :: g < |regions| ==> RegionIs(m, regions, g)
  {
    KernelTiles(m.code);
    assert forall g: nat :: g < |Starts(m)| - 1 ==> GroupOk(m.code, Starts(m), g);
    seq(|Starts(m)| - 1, g requires 0 <= g < |Starts(m)| - 1 && GroupOk(m.code, Starts(m), g) => RegionOf(m, g))
  }

  ghost predicate RegionIs(m: Build, regions: seq<Region>, g: nat)
    requires BuildOk(m)
  {
    && g < |regions| && g + 1 < |Starts(m)| && GroupOk(m.code, Starts(m), g) && |m.order| == |m.code.table|
    && regions[g] == RegionOf(m, g)
  }

  lemma RegionsFit(m: Build)
    requires BuildOk(m)
    ensures RegionsOk(Regions(m), Total(m.order), m.batch)
  {
    var regions := Regions(m);
    forall h: nat | h < |regions|
      ensures RegionOk(regions[h], Total(m.order), m.batch)
    {
      assert RegionIs(m, regions, h);
      GroupIs(m, h);
      EdgesBeforeGrows(m.order, Starts(m)[h + 1], |m.order|);
    }
    forall g: nat, h: nat | g < h < |regions|
      ensures Before(regions[g], regions[h])
    {
      assert RegionIs(m, regions, g) && RegionIs(m, regions, h);
      GroupIs(m, g);
      StartsGrow(m, g + 1, h);
      EdgesBeforeGrows(m.order, Starts(m)[g + 1], Starts(m)[h]);
    }
  }

  // ---------- steps of the kernel ----------

  /** Control state, posteriors, the two message slots and global memory. The control state's own payload is not
      used: what moves is in the buffers. */
  datatype Kernel = Kernel(pipe: Pipe, lam: seq<real>, ub: seq<seq<int>>, gm: seq<int>)

  /** Row group g of a pass, as the kernel calls it. */
  function GroupAt(m: Build, u: Setup, iter: nat, g: nat): (group: Group)
    requires g + 1 < |Starts(m)| && Starts(m)[g] < Starts(m)[g + 1] && Starts(m)[g] < |m.order|
  {
    var br := Starts(m)[g];
    Group(br, |m.order[br]|, Starts(m)[g + 1] - br, m.batch, iter == 0, iter + 1 < u.iters)
  }

  /** The group computes from posteriors lam and the held slot contents; t is its workspace between the passes. */
  ghost predicate CastBy(m: Build, g: Group, t: Trace, held: seq<int>, lam: seq<real>, lam': seq<real>)
    requires BuildOk(m) && GroupShape(g.rows, g.batch) && 2 <= g.deg && g.br + g.rows <= |m.order|
  {
    && ComputedFrom(t, m.plan, m.q, lam, g.cold, g.keep, g.br, g.deg, g.rows, g.batch)
    && (!g.cold ==> t.stored == held) && Scattered(t, m.order, lam, lam', g.br, g.rows, g.batch)
    && (g.keep ==> |t.sent| == 2 * MAX_DEG * Z)
  }

  /** What a step of the control does to the buffers, when group g of pass iter is current. */
  ghost predicate Buffered(m: Build, u: Setup, s: Kernel, s': Kernel, step: Step, g: Group, r: Region)
    requires BuildOk(m) && MessagePipe.Shaped(u, s.pipe) && |s.ub| == 2 && GroupShape(g.rows, g.batch) && 2 <= g.deg
    requires g.br + g.rows <= |m.order| && GroupShape(r.rows, m.batch) && u.groups == |Regions(m)|
  {
    var slot, total := SlotOf(s.pipe.group), Total(m.order);
    match step
    case CompleteStep(k) =>
      && s'.lam == s.lam && s'.ub == s.ub
      && k < 2 && s.pipe.inflight[k].Some? && s.pipe.inflight[k].value < |Regions(m)|
      && RegionOk(Regions(m)[s.pipe.inflight[k].value], total, m.batch)
      && Holds(s.ub[k], s'.gm, Regions(m)[s.pipe.inflight[k].value], total, m.batch)
      && Kept(s'.gm, s.gm, Regions(m)[s.pipe.inflight[k].value], total)
    case LoadStep =>
      && s'.lam == s.lam && s'.gm == s.gm
      && if g.cold then s'.ub == s.ub
         else |s'.ub| == 2 && s'.ub == s.ub[slot := s'.ub[slot]] && Holds(s'.ub[slot], s.gm, r, total, m.batch)
    case CastStep(_) =>
      && s'.gm == s.gm && |s'.ub| == 2
      && exists t :: CastBy(m, g, t, s.ub[slot], s.lam, s'.lam)
                     && s'.ub == if g.keep then s.ub[slot := t.sent] else s.ub
    case _ => s'.lam == s.lam && s'.ub == s.ub && s'.gm == s.gm
  }

  ghost predicate KernelBy(m: Build, u: Setup, s: Kernel, s': Kernel, step: Step)
    requires BuildOk(m) && u.groups == |Regions(m)|
  {
    && MessagePipe.Shaped(u, s.pipe) && |s.ub| == 2 && NextBy(u, s.pipe, s'.pipe, step)
    && RegionIs(m, Regions(m), s.pipe.group)
    && var g := GroupAt(m, u, s.pipe.iter, s.pipe.group);
       && GroupShape(g.rows, g.batch) && 2 <= g.deg && g.br + g.rows <= |m.order|
       && Buffered(m, u, s, s', step, g, RegionOf(m, s.pipe.group))
  }

  // ---------- the synchronous kernel it follows ----------

  /** The group that slot s is to be, or being, stored for. */
  function OwnerOf(p: Pipe, s: nat): Option<nat>
    requires |p.inflight| == 2 && s < 2
  {
    if p.phase == Issuing && SlotOf(p.group) == s then Some(p.group) else p.inflight[s]
  }

  function Owners(p: Pipe): (owner: seq<Option<nat>>)
    requires |p.inflight| == 2
    ensures |owner| == 2
  {
    [OwnerOf(p, 0), OwnerOf(p, 1)]
  }

  /** How each step changes what is still to be stored. */
  lemma OwnersAfter(u: Setup, p: Pipe, p': Pipe, step: Step)
    requires Inv(u, p) && NextBy(u, p, p', step)
    ensures |p'.inflight| == 2
    ensures match step
            case CompleteStep(k) => k < 2 && Owners(p)[k] == p.inflight[k] && Owners(p') == Owners(p)[k := None]
            case CastStep(_) => Owners(p)[SlotOf(p.group)].None? &&
              Owners(p') == if p.iter + 1 < u.iters then Owners(p)[SlotOf(p.group) := Some(p.group)] else Owners(p)
            case LoadStep => Owners(p)[SlotOf(p.group)].None? && Owners(p') == Owners(p)
            case _ => Owners(p') == Owners(p)
  {
    assert SlotTracked(u, p, 0) && SlotTracked(u, p, 1);
    assert CurrentFree(u, p);
  }

  /** Where the kernel stands: v is what its messages amount to, row the next row of the pass. */
  ghost predicate StandsAt(m: Build, u: Setup, chan: seq<seq<Column>>, iter: nat, row: nat, lam: seq<real>, v: seq<int>)
    requires BuildOk(m) && |chan| == m.batch
  {
    && row <= |m.code.table|
    && LanesAt(m.code, m.q, chan, StepsIn(m.code, iter) + row, lam, v, m.order, iter == 0, iter + 1 < u.iters, row,
               m.batch)
  }

  ghost predicate Position(m: Build, u: Setup, chan: seq<seq<Column>>, p: Pipe, lam: seq<real>, v: seq<int>)
    requires BuildOk(m) && |chan| == m.batch
  {
    && p.group + 1 < |Starts(m)|
    && if p.phase == Done then Finished(m.code, m.q, chan, StepsIn(m.code, u.iters), lam, m.batch)
       else
         var row := if p.phase == Issuing then Starts(m)[p.group + 1] else Starts(m)[p.group];
         StandsAt(m, u, chan, p.iter, row, lam, v)
  }

  /** On to the next group, the next pass or the export: the synchronous kernel stands there too. */
  lemma AdvancePosition(m: Build, u: Setup, chan: seq<seq<Column>>, p: Pipe, lam: seq<real>, v: seq<int>)
    requires BuildOk(m) && |chan| == m.batch && MessagePipe.Shaped(u, p) && |Starts(m)| == u.groups + 1
    requires StandsAt(m, u, chan, p.iter, Starts(m)[p.group + 1], lam, v)
    ensures Position(m, u, chan, Advance(u, p), lam, v)
  {
    KernelTiles(m.code);
    var rows := |m.code.table|;
    if p.group + 1 == u.groups {
      assert Starts(m)[p.group + 1] == rows;
      assert StepsIn(m.code, p.iter + 1) == StepsIn(m.code, p.iter) + rows;
      if p.iter + 1 < u.iters {
        LanesRestart(m.code, m.q, chan, StepsIn(m.code, p.iter + 1), lam, v, m.order, p.iter == 0, p.iter + 2 < u.iters,
                     m.batch);
      } else {
        LanesFinish(m.code, m.q, chan, StepsIn(m.code, p.iter + 1), lam, v, m.order, p.iter == 0, false, m.batch);
      }
    }
  }

  /** The cast, read on what memory will hold, is the synchronous group. */
  lemma CastIsGroup(m: Build, u: Setup, iter: nat, g: nat, group: Group, t: Trace, held: seq<int>,
                    lam: seq<real>, lam': seq<real>, v: seq<int>, v': seq<int>)
    requires BuildOk(m) && RegionIs(m, Regions(m), g) && group == GroupAt(m, u, iter, g)
    requires GroupShape(group.rows, group.batch) && 2 <= group.deg && group.br + group.rows <= |m.order|
    requires CastBy(m, group, t, held, lam, lam') && Slot(m.code.n, 0, m.batch) * Z <= |lam|
    requires !group.cold ==> Holds(held, v, RegionOf(m, g), Total(m.order), m.batch)
    requires if group.keep then Holds(t.sent, v', RegionOf(m, g), Total(m.order), m.batch)
                             && Kept(v', v, RegionOf(m, g), Total(m.order)) else v' == v
    ensures GroupRan(m.code, m.plan, m.order, m.q, group, t, lam, lam', v, v')
  {
    GroupIs(m, g);
  }

  /** The steps of pass iter that group g takes are those of its rows. */
  lemma GroupSteps(m: Build, iter: nat, g: nat)
    requires BuildOk(m) && g + 1 < |Starts(m)|
    ensures var br, next, base := Starts(m)[g], Starts(m)[g + 1], StepsIn(m.code, iter);
            && br < next <= |m.code.table| && RowAt(m.code, base + br) == br
            && (next - br == 2 ==> RowAt(m.code, base + br + 1) == br + 1)
  {
    GroupIs(m, g);
    var br, base := Starts(m)[g], StepsIn(m.code, iter);
    StepsInIsProduct(m.code, iter);
    RowAtStep(m.code, base, br);
    if br + 1 < |m.code.table| {
      RowAtStep(m.code, base, br + 1);
    }
  }

  lemma CastAdvances(m: Build, u: Setup, chan: seq<seq<Column>>, iter: nat, g: nat, group: Group, t: Trace,
                     lam: seq<real>, lam': seq<real>, v: seq<int>, v': seq<int>)
    requires BuildOk(m) && |chan| == m.batch && RegionIs(m, Regions(m), g) && group == GroupAt(m, u, iter, g)
    requires GroupRan(m.code, m.plan, m.order, m.q, group, t, lam, lam', v, v')
    requires StandsAt(m, u, chan, iter, Starts(m)[g], lam, v)
    ensures StandsAt(m, u, chan, iter, Starts(m)[g + 1], lam', v')
  {
    var br, next, base := Starts(m)[g], Starts(m)[g + 1], StepsIn(m.code, iter);
    GroupSteps(m, iter, g);
    GroupAdvances(m.code, m.plan, m.order, m.q, group, t, lam, lam', v, v', chan, base + br, next, base + next);
  }

  /** Conversely, the synchronous group is such a cast, of what its reload left in the slot. */
  lemma GroupIsCast(m: Build, u: Setup, iter: nat, g: nat, group: Group, t: Trace, lam: seq<real>, lam': seq<real>,
                    v: seq<int>, v': seq<int>)
    requires BuildOk(m) && RegionIs(m, Regions(m), g) && group == GroupAt(m, u, iter, g)
    requires GroupRan(m.code, m.plan, m.order, m.q, group, t, lam, lam', v, v')
    requires group.keep ==> |t.sent| == 2 * MAX_DEG * Z
    ensures CastBy(m, group, t, t.stored, lam, lam')
    ensures !group.cold ==> Holds(t.stored, v, RegionOf(m, g), Total(m.order), m.batch)
    ensures if group.keep then Holds(t.sent, v', RegionOf(m, g), Total(m.order), m.batch)
                               && Kept(v', v, RegionOf(m, g), Total(m.order)) else v' == v
  {
  }

  // ---------- every step follows it ----------

  /** The groups of the run are the kernel's, and lie one after the other in memory. */
  ghost predicate Runnable(m: Build, u: Setup, chan: seq<seq<Column>>) {
    && BuildOk(m) && |chan| == m.batch && u.groups == |Regions(m)|
    && RegionsOk(Regions(m), Total(m.order), m.batch)
  }

  /** The buffers stand for a synchronous kernel whose message memory is v. */
  ghost predicate Follows(m: Build, u: Setup, chan: seq<seq<Column>>, s: Kernel, v: seq<int>)
    requires Runnable(m, u, chan)
  {
    && Inv(u, s.pipe) && Slot(m.code.n, 0, m.batch) * Z <= |s.lam|
    && Virtual(Regions(m), Total(m.order), m.batch, s.ub, s.gm, v, Owners(s.pipe))
    && Position(m, u, chan, s.pipe, s.lam, v)
    && (s.pipe.phase == Casting && s.pipe.iter > 0 ==>
          Holds(s.ub[SlotOf(s.pipe.group)], v, Regions(m)[s.pipe.group], Total(m.order), m.batch))
  }

  lemma ControlStays(u: Setup, p: Pipe, p': Pipe, step: Step)
    requires Inv(u, p) && NextBy(u, p, p', step)
    ensures Inv(u, p')
  {
    assert Next(u, p, p');
    StepKeeps(u, p, p');
  }

  lemma QuietFollows(m: Build, u: Setup, chan: seq<seq<Column>>, s: Kernel, s': Kernel, step: Step, v: seq<int>)
    requires Runnable(m, u, chan)
    requires Follows(m, u, chan, s, v) && KernelBy(m, u, s, s', step)
    requires step.WaitStep? || (step.LoadStep? && s.pipe.iter == 0)
    ensures Follows(m, u, chan, s', v)
  {
    OwnersAfter(u, s.pipe, s'.pipe, step);
    ControlStays(u, s.pipe, s'.pipe, step);
  }

  lemma CompleteFollowsKernel(m: Build, u: Setup, chan: seq<seq<Column>>, s: Kernel, s': Kernel, k: nat, v: seq<int>)
    requires Runnable(m, u, chan)
    requires Follows(m, u, chan, s, v) && KernelBy(m, u, s, s', CompleteStep(k))
    ensures Follows(m, u, chan, s', v)
  {
    OwnersAfter(u, s.pipe, s'.pipe, CompleteStep(k));
    ControlStays(u, s.pipe, s'.pipe, CompleteStep(k));
    CompleteVirtual(Regions(m), Total(m.order), m.batch, s.ub, s.gm, s'.gm, v, Owners(s.pipe), k);
  }

  lemma LoadFollowsKernel(m: Build, u: Setup, chan: seq<seq<Column>>, s: Kernel, s': Kernel, v: seq<int>)
    requires Runnable(m, u, chan)
    requires Follows(m, u, chan, s, v) && KernelBy(m, u, s, s', LoadStep) && s.pipe.iter > 0
    ensures Follows(m, u, chan, s', v)
  {
    var slot := SlotOf(s.pipe.group);
    OwnersAfter(u, s.pipe, s'.pipe, LoadStep);
    ControlStays(u, s.pipe, s'.pipe, LoadStep);
    LoadVirtual(Regions(m), Total(m.order), m.batch, s.ub, s.gm, v, Owners(s.pipe), s.pipe.group, s'.ub[slot]);
  }

  lemma IssueFollowsKernel(m: Build, u: Setup, chan: seq<seq<Column>>, s: Kernel, s': Kernel, v: seq<int>)
    requires Runnable(m, u, chan)
    requires Follows(m, u, chan, s, v) && KernelBy(m, u, s, s', IssueStep)
    ensures Follows(m, u, chan, s', v)
  {
    OwnersAfter(u, s.pipe, s'.pipe, IssueStep);
    ControlStays(u, s.pipe, s'.pipe, IssueStep);
    AdvancePosition(m, u, chan, s.pipe, s.lam, v);
  }

  /** What memory will hold after the cast: the group's new messages, if they are kept. */
  lemma NextMemory(m: Build, g: nat, keep: bool, sent: seq<int>, v: seq<int>) returns (v': seq<int>)
    requires BuildOk(m) && RegionIs(m, Regions(m), g) && RegionsOk(Regions(m), Total(m.order), m.batch)
    requires Memory(v, Total(m.order), m.batch) && (keep ==> |sent| == 2 * MAX_DEG * Z)
    ensures RegionOk(RegionOf(m, g), Total(m.order), m.batch)
    ensures if keep then Holds(sent, v', RegionOf(m, g), Total(m.order), m.batch)
                         && Kept(v', v, RegionOf(m, g), Total(m.order)) else v' == v
  {
    GroupIs(m, g);
    if keep {
      v' := StoreExists(v, sent, RegionOf(m, g), Total(m.order), m.batch);
    } else {
      v' := v;
    }
  }

  lemma CastStands(m: Build, u: Setup, chan: seq<seq<Column>>, s: Kernel, group: Group, t: Trace, lam': seq<real>,
                   v: seq<int>, v': seq<int>)
    requires Runnable(m, u, chan)
    requires Follows(m, u, chan, s, v) && s.pipe.phase == Casting && RegionIs(m, Regions(m), s.pipe.group)
    requires group == GroupAt(m, u, s.pipe.iter, s.pipe.group)
    requires GroupShape(group.rows, group.batch) && 2 <= group.deg && group.br + group.rows <= |m.order|
    requires CastBy(m, group, t, s.ub[SlotOf(s.pipe.group)], s.lam, lam')
    requires if group.keep then Holds(t.sent, v', RegionOf(m, s.pipe.group), Total(m.order), m.batch)
                             && Kept(v', v, RegionOf(m, s.pipe.group), Total(m.order)) else v' == v
    ensures StandsAt(m, u, chan, s.pipe.iter, Starts(m)[s.pipe.group + 1], lam', v') && |lam'| == |s.lam|
  {
    CastIsGroup(m, u, s.pipe.iter, s.pipe.group, group, t, s.ub[SlotOf(s.pipe.group)], s.lam, lam', v, v');
    CastAdvances(m, u, chan, s.pipe.iter, s.pipe.group, group, t, s.lam, lam', v, v');
  }

  /** A cast whose messages are kept: they are still to be stored. */
  lemma KeptCastFollows(m: Build, u: Setup, chan: seq<seq<Column>>, s: Kernel, s': Kernel, step: Step, sent: seq<int>,
                        v: seq<int>, v': seq<int>)
    requires Runnable(m, u, chan) && Follows(m, u, chan, s, v) && step.CastStep? && NextBy(u, s.pipe, s'.pipe, step)
    requires s.pipe.iter + 1 < u.iters && s'.gm == s.gm && s'.ub == s.ub[SlotOf(s.pipe.group) := sent]
    requires s.pipe.group + 1 < |Starts(m)| && |s'.lam| == |s.lam|
    requires StandsAt(m, u, chan, s.pipe.iter, Starts(m)[s.pipe.group + 1], s'.lam, v')
    requires Holds(sent, v', Regions(m)[s.pipe.group], Total(m.order), m.batch)
    requires Kept(v', v, Regions(m)[s.pipe.group], Total(m.order))
    ensures Follows(m, u, chan, s', v')
  {
    OwnersAfter(u, s.pipe, s'.pipe, step);
    ControlStays(u, s.pipe, s'.pipe, step);
    CastVirtual(Regions(m), Total(m.order), m.batch, s.ub, s.gm, v, Owners(s.pipe), s.pipe.group, sent, v');
  }

  /** A cast of the last pass. */
  lemma LastCastFollows(m: Build, u: Setup, chan: seq<seq<Column>>, s: Kernel, s': Kernel, step: Step, v: seq<int>)
    requires Runnable(m, u, chan) && Follows(m, u, chan, s, v) && step.CastStep? && NextBy(u, s.pipe, s'.pipe, step)
    requires s.pipe.iter + 1 >= u.iters && s'.gm == s.gm && s'.ub == s.ub
    requires s.pipe.group + 1 < |Starts(m)| && |s'.lam| == |s.lam|
    requires StandsAt(m, u, chan, s.pipe.iter, Starts(m)[s.pipe.group + 1], s'.lam, v)
    ensures Follows(m, u, chan, s', v)
  {
    OwnersAfter(u, s.pipe, s'.pipe, step);
    ControlStays(u, s.pipe, s'.pipe, step);
    AdvancePosition(m, u, chan, s.pipe, s'.lam, v);
  }

  lemma CastFollowsKernel(m: Build, u: Setup, chan: seq<seq<Column>>, s: Kernel, s': Kernel, step: Step, v: seq<int>)
    returns (v': seq<int>)
    requires Runnable(m, u, chan) && Follows(m, u, chan, s, v) && step.CastStep? && KernelBy(m, u, s, s', step)
    ensures Follows(m, u, chan, s', v')
  {
    var p, slot := s.pipe, SlotOf(s.pipe.group);
    var group := GroupAt(m, u, p.iter, p.group);
    var t :| CastBy(m, group, t, s.ub[slot], s.lam, s'.lam)
             && s'.ub == if group.keep then s.ub[slot := t.sent] else s.ub;
    v' := NextMemory(m, p.group, group.keep, t.sent, v);
    CastStands(m, u, chan, s, group, t, s'.lam, v, v');
    if group.keep {
      KeptCastFollows(m, u, chan, s, s', step, t.sent, v, v');
    } else {
      LastCastFollows(m, u, chan, s, s', step, v);
    }
  }

  /** Every step of every interleaving follows the kernel with synchronous stores. */
  lemma StepFollowsKernel(m: Build, u: Setup, chan: seq<seq<Column>>, s: Kernel, s': Kernel, step: Step, v: seq<int>)
    returns (v': seq<int>)
    requires Runnable(m, u, chan)
    requires Follows(m, u, chan, s, v) && KernelBy(m, u, s, s', step)
    ensures Follows(m, u, chan, s', v')
  {
    v' := v;
    match step
    case CastStep(_) => v' := CastFollowsKernel(m, u, chan, s, s', step, v);
    case CompleteStep(k) => CompleteFollowsKernel(m, u, chan, s, s', k, v);
    case IssueStep => IssueFollowsKernel(m, u, chan, s, s', v);
    case LoadStep =>
      if s.pipe.iter > 0 {
        LoadFollowsKernel(m, u, chan, s, s', v);
      } else {
        QuietFollows(m, u, chan, s, s', step, v);
      }
    case WaitStep => QuietFollows(m, u, chan, s, s', step, v);
  }

  ghost predicate KernelNext(m: Build, u: Setup, s: Kernel, s': Kernel)
    requires BuildOk(m) && u.groups == |Regions(m)|
  {
    exists step :: KernelBy(m, u, s, s', step)
  }

  /** The buffers stand for some synchronous kernel. */
  ghost predicate OnCourse(m: Build, u: Setup, chan: seq<seq<Column>>, s: Kernel)
    requires Runnable(m, u, chan)
  {
    exists v :: Follows(m, u, chan, s, v)
  }

  lemma NextStaysOnCourse(m: Build, u: Setup, chan: seq<seq<Column>>, s: Kernel, s': Kernel)
    requires Runnable(m, u, chan) && OnCourse(m, u, chan, s) && KernelNext(m, u, s, s')
    ensures OnCourse(m, u, chan, s')
  {
    var step :| KernelBy(m, u, s, s', step);
    var v :| Follows(m, u, chan, s, v);
    var v' := StepFollowsKernel(m, u, chan, s, s', step, v);
  }

  // ---------- whole runs ----------

  ghost predicate KernelStepping(m: Build, u: Setup, run: seq<Kernel>, i: nat)
    requires BuildOk(m) && u.groups == |Regions(m)| && i + 1 < |run|
  {
    KernelNext(m, u, run[i], run[i + 1])
  }

  /** Channel values loaded, nothing stored, two slots and memory of the kernel's sizes. */
  ghost predicate KernelStart(m: Build, u: Setup, chan: seq<seq<Column>>, s: Kernel)
    requires BuildOk(m) && |chan| == m.batch
  {
    && Init(u, s.pipe) && |s.ub| == 2 && Memory(s.gm, Total(m.order), m.batch)
    && Slot(m.code.n, 0, m.batch) * Z <= |s.lam|
    && LanesAt(m.code, m.q, chan, 0, s.lam, s.gm, m.order, true, 1 < u.iters, 0, m.batch)
  }

  ghost predicate KernelRun(m: Build, u: Setup, chan: seq<seq<Column>>, run: seq<Kernel>)
    requires BuildOk(m) && |chan| == m.batch && u.groups == |Regions(m)|
  {
    && |run| > 0 && KernelStart(m, u, chan, run[0])
    && forall i: nat :: i + 1 < |run| ==> KernelStepping(m, u, run, i)
  }

  lemma StartsOnCourse(m: Build, u: Setup, chan: seq<seq<Column>>, s: Kernel)
    requires Runnable(m, u, chan) && KernelStart(m, u, chan, s)
    ensures OnCourse(m, u, chan, s)
  {
    InitInv(u, s.pipe);
    assert StepsIn(m.code, 0) + Starts(m)[0] == 0;
    assert Follows(m, u, chan, s, s.gm);
  }

  lemma {:induction false} RunStaysOnCourse(m: Build, u: Setup, chan: seq<seq<Column>>, run: seq<Kernel>, i: nat)
    requires Runnable(m, u, chan) && KernelRun(m, u, chan, run) && i < |run|
    ensures OnCourse(m, u, chan, run[i])
  {
    if i == 0 {
      StartsOnCourse(m, u, chan, run[0]);
    } else {
      RunStaysOnCourse(m, u, chan, run, i - 1);
      assert KernelStepping(m, u, run, i - 1);
      NextStaysOnCourse(m, u, chan, run[i - 1], run[i]);
    }
  }

  function Controls(run: seq<Kernel>): (pipes: seq<Pipe>)
    ensures |pipes| == |run|
  {
    seq(|run|, i requires 0 <= i < |run| => run[i].pipe)
  }

  lemma ControlsRun(m: Build, u: Setup, chan: seq<seq<Column>>, run: seq<Kernel>)
    requires BuildOk(m) && |chan| == m.batch && u.groups == |Regions(m)| && KernelRun(m, u, chan, run)
    ensures MessagePipe.Run(u, Controls(run))
  {
    forall i: nat | i + 1 < |run|
      ensures Stepping(u, Controls(run), i)
    {
      assert KernelStepping(m, u, run, i);
      var step :| KernelBy(m, u, run[i], run[i + 1], step);
      assert NextBy(u, run[i].pipe, run[i + 1].pipe, step);
    }
  }

  /**
   The kernel's buffers in any interleaving of its message stores: every run is finite, and at the export all lanes
   hold the plain decoder's posteriors after all passes, each column in its last coordinate, as after `Iterate`.
   */
  lemma EveryKernelRunDecodes(m: Build, u: Setup, chan: seq<seq<Column>>, run: seq<Kernel>, i: nat)
    requires BuildOk(m) && |chan| == m.batch && u.groups == |Regions(m)| && KernelRun(m, u, chan, run) && i < |run|
    ensures |run| <= 5 * (u.iters * u.groups) + 1
    ensures run[i].pipe.phase == Done ==>
      Finished(m.code, m.q, chan, StepsIn(m.code, u.iters), run[i].lam, m.batch)
  {
    RegionsFit(m);
    ControlsRun(m, u, chan, run);
    EveryRunExports(u, Controls(run));
    RunStaysOnCourse(m, u, chan, run, i);
    var v :| Follows(m, u, chan, run[i], v);
  }
}
