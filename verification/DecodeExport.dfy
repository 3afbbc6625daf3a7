/** Entry and exit of the decoder: load code blocks, return to variable order, clamp, round, decide. */
module DecodeExport {
  import opened Arith
  import opened LayeredDecoder
  import opened GraphPlan
  import opened ShiftKernel
  import opened GatherKernel
  import opened RowRefinement
  import opened GroupRefinement

  /** One code block's channel values, column by column. */
  function Channel(input: seq<int>, n: nat): (chan: seq<Column>)
    requires |input| == n * Z
    ensures |chan| == n && forall c :: 0 <= c < n ==> |chan[c]| == Z
  {
    seq(n, c requires 0 <= c < n => seq(Z, i requires 0 <= i < Z => input[c * Z + i] as real))
  }

  function Channels(inputs: seq<seq<int>>, n: nat): (chans: seq<seq<Column>>)
    requires forall b :: 0 <= b < |inputs| ==> |inputs[b]| == n * Z
    ensures |chans| == |inputs| && forall b :: 0 <= b < |chans| ==> chans[b] == Channel(inputs[b], n)
  {
    seq(|inputs|, b requires 0 <= b < |inputs| => Channel(inputs[b], n))
  }

  /** Place one column of one code block into its lane. */
  method LoadColumn(lam: array<real>, input: seq<int>, c: nat, b: nat, n: nat, batch: nat)
    requires LaneCount(batch) && b < batch && c < n && |input| == n * Z && Slot(n, 0, batch) * Z <= lam.Length
    modifies lam
    ensures ResidentColumn(lam[..], Channel(input, n)[c], 0, c, b, batch)
    ensures forall u: nat, i: nat :: i < Z && u * Z + Z <= lam.Length && u != Slot(c, b, batch) ==>
      At(lam[..], u, i) == At(old(lam[..]), u, i)
  {
    var d := Slot(c, b, batch) * Z;
    forall i | 0 <= i < Z {
      lam[d + i] := input[c * Z + i] as real;
    }
  }

  ghost predicate LoadedUpTo(lam: seq<real>, chan: seq<Column>, m: nat, b: nat, batch: nat)
    requires LaneCount(batch) && m <= |chan|
  {
    forall c: nat :: c < m ==> ResidentColumn(lam, chan[c], 0, c, b, batch)
  }

  /** Interleave the code blocks: [column][lane][z]. */
  method LoadChannels(lam: array<real>, inputs: seq<seq<int>>, n: nat, batch: nat)
    requires (batch == 1 || batch == 2) && |inputs| == batch && (forall b :: 0 <= b < batch ==> |inputs[b]| == n * Z)
    requires lam.Length == Slot(n, 0, batch) * Z
    modifies lam
    ensures forall b: nat :: b < batch ==> LoadedUpTo(lam[..], Channel(inputs[b], n), n, b, batch)
  {
    for c := 0 to n
      invariant forall b: nat :: b < batch ==> LoadedUpTo(lam[..], Channel(inputs[b], n), c, b, batch)
    {
      LoadColumn(lam, inputs[0], c, 0, n, batch);
      if batch == 2 {
        LoadColumn(lam, inputs[1], c, 1, n, batch);
      }
    }
  }

  // ---------- back to variable order ----------

  /** Undo one column's coordinate: rotate by its inverse through the scratch buffer. */
  method RestoreColumn(lam: array<real>, scratch: array<real>, c: nat, coord: nat, batch: nat)
    requires lam != scratch && LaneCount(batch) && coord < Z && Fits(lam.Length, c, batch)
    requires Fits(scratch.Length, 0, batch)
    modifies lam, scratch
    ensures |lam[..]| == |old(lam[..])|
    ensures forall b: nat, i: nat :: b < batch && i < Z ==>
      At(lam[..], Slot(c, b, batch), i) == At(old(lam[..]), Slot(c, b, batch), CheckOf(i, coord, Z))
    ensures forall c': nat :: c' != c ==> ColumnKept(lam[..], old(lam[..]), c', batch)
  {
    var sh := if coord == 0 then 0 else Z - coord;
    ghost var was := lam[..];
    if sh != 0 {
      ShiftDynamic(scratch, 0, lam, c, sh, batch);
      ghost var turned := scratch[..];
      ShiftZero(lam, c, scratch, 0, batch);
      RestoredLanes(lam[..], was, turned, c, coord, sh, batch);
      forall c': nat | c' != c
        ensures ColumnKept(lam[..], was, c', batch)
      {
        OtherColumnKept(lam[..], was, c, c', batch);
      }
    }
  }

  lemma RestoredLanes(lam: seq<real>, was: seq<real>, turned: seq<real>, c: nat, coord: nat, sh: nat, batch: nat)
    requires LaneCount(batch) && 0 < coord < Z && sh == Z - coord && |lam| == |was|
    requires Fits(|was|, c, batch) && Fits(|turned|, 0, batch)
    requires forall b: nat, i: nat :: b < batch && i < Z ==>
      At(turned, Slot(0, b, batch), i) == At(was, Slot(c, b, batch), BitOf(i, sh, Z))
    requires forall b: nat, i: nat :: b < batch && i < Z ==>
      At(lam, Slot(c, b, batch), i) == At(turned, Slot(0, b, batch), BitOf(i, 0, Z))
    ensures forall b: nat, i: nat :: b < batch && i < Z ==>
      At(lam, Slot(c, b, batch), i) == At(was, Slot(c, b, batch), CheckOf(i, coord, Z))
  {
    forall b: nat, i: nat | b < batch && i < Z
      ensures At(lam, Slot(c, b, batch), i) == At(was, Slot(c, b, batch), CheckOf(i, coord, Z))
    {
      assert BitOf(i, 0, Z) == i && BitOf(i, sh, Z) == CheckOf(i, coord, Z);
    }
  }

  /** The first m columns are in variable order, the others still in their last coordinate. */
  ghost predicate RestoredAt(lam: seq<real>, st: State, cur: seq<nat>, m: nat, c: nat, b: nat, batch: nat)
    requires LaneCount(batch) && c < |cur| && c < |st.lam|
  {
    ResidentColumn(lam, st.lam[c], if c < m then 0 else cur[c], c, b, batch)
  }

  ghost predicate RestoredUpTo(code: Code, lam: seq<real>, st: State, cur: seq<nat>, m: nat, b: nat, batch: nat)
    requires LaneCount(batch)
  {
    && |cur| == |st.lam| == code.n
    && forall c: nat :: c < code.n ==> RestoredAt(lam, st, cur, m, c, b, batch)
  }

  lemma RestoreStep(code: Code, lam0: seq<real>, lam: seq<real>, st: State, cur: seq<nat>, c: nat, b: nat, batch: nat)
    requires LaneCount(batch) && b < batch && c < code.n && Slot(code.n, 0, batch) * Z == |lam0| == |lam|
    requires RestoredUpTo(code, lam0, st, cur, c, b, batch)
    requires cur[c] < Z
    requires forall b: nat, i: nat :: b < batch && i < Z ==>
      At(lam, Slot(c, b, batch), i) == At(lam0, Slot(c, b, batch), CheckOf(i, cur[c], Z))
    requires forall c': nat :: c' != c ==> ColumnKept(lam, lam0, c', batch)
    ensures RestoredUpTo(code, lam, st, cur, c + 1, b, batch)
  {
    var m := c + 1;
    forall c': nat | c' < code.n
      ensures RestoredAt(lam, st, cur, m, c', b, batch)
    {
      assert RestoredAt(lam0, st, cur, c, c', b, batch);
      if c' == c {
        TurnedBack(lam0, lam, st.lam[c], cur[c], c, b, batch);
      } else {
        assert ColumnKept(lam, lam0, c', batch);
        KeptColumnStaysResident(lam0, lam, st.lam[c'], if c' < c then 0 else cur[c'], c', b, batch);
      }
    }
  }

  lemma TurnedBack(lam0: seq<real>, lam: seq<real>, col: Column, coord: nat, c: nat, b: nat, batch: nat)
    requires LaneCount(batch) && b < batch && ResidentColumn(lam0, col, coord, c, b, batch) && |lam| == |lam0|
    requires Fits(|lam|, c, batch)
    requires forall b: nat, i: nat :: b < batch && i < Z ==>
      At(lam, Slot(c, b, batch), i) == At(lam0, Slot(c, b, batch), CheckOf(i, coord, Z))
    ensures ResidentColumn(lam, col, 0, c, b, batch)
  {
    forall i: nat | i < Z
      ensures At(lam, Slot(c, b, batch), i) == col[BitOf(i, 0, Z)]
    {
      assert BitOf(CheckOf(i, coord, Z), coord, Z) == i;
    }
  }

  ghost predicate AllRestored(code: Code, lam: seq<real>, sts: seq<State>, m: nat, batch: nat)
    requires ValidCode(code) && LaneCount(batch) && |sts| == batch
  {
    forall b: nat :: b < batch ==> LaneRestored(code, lam, sts, m, b, batch)
  }

  ghost predicate LaneRestored(code: Code, lam: seq<real>, sts: seq<State>, m: nat, b: nat, batch: nat)
    requires ValidCode(code) && LaneCount(batch) && b < |sts|
  {
    RestoredUpTo(code, lam, sts[b], LastCoords(code), m, b, batch)
  }

  /** Return every column from its last edge's coordinate to variable order. */
  method RestoreAll(ghost code: Code, last: seq<nat>, lam: array<real>, scratch: array<real>, ghost sts: seq<State>,
                    batch: nat)
    requires ValidCode(code) && code.z == Z && last == LastCoords(code)
    requires (batch == 1 || batch == 2) && |sts| == batch && lam != scratch
    requires lam.Length == Slot(code.n, 0, batch) * Z && Fits(scratch.Length, 0, batch)
    requires AllRestored(code, lam[..], sts, 0, batch)
    modifies lam, scratch
    ensures AllRestored(code, lam[..], sts, code.n, batch)
  {
    CoordsBelowZ(code, Zeros(code.n), |code.table|);
    for c := 0 to |last|
      invariant AllRestored(code, lam[..], sts, c, batch)
    {
      ghost var was := lam[..];
      RestoreColumn(lam, scratch, c, last[c], batch);
      AllRestoredStep(code, was, lam[..], sts, c, batch);
    }
  }

  lemma AllRestoredStep(code: Code, lam0: seq<real>, lam: seq<real>, sts: seq<State>, c: nat, batch: nat)
    requires ValidCode(code) && LaneCount(batch) && |sts| == batch && c < code.n
    requires Slot(code.n, 0, batch) * Z == |lam0| == |lam| && LastCoords(code)[c] < Z
    requires AllRestored(code, lam0, sts, c, batch)
    requires forall b: nat, i: nat :: b < batch && i < Z ==>
      At(lam, Slot(c, b, batch), i) == At(lam0, Slot(c, b, batch), CheckOf(i, LastCoords(code)[c], Z))
    requires forall c': nat :: c' != c ==> ColumnKept(lam, lam0, c', batch)
    ensures AllRestored(code, lam, sts, c + 1, batch)
  {
    var m := c + 1;
    forall b: nat | b < batch
      ensures LaneRestored(code, lam, sts, m, b, batch)
    {
      assert LaneRestored(code, lam0, sts, c, b, batch);
      RestoreStep(code, lam0, lam, sts[b], LastCoords(code), c, b, batch);
    }
  }

  // ---------- export ----------


  function Clamp(x: real): (r: real)
    ensures -(LLR_CLIP as real) <= r <= (LLR_CLIP as real)
  {
    var capped := if x > LLR_CLIP as real then LLR_CLIP as real else x;
    if capped < -(LLR_CLIP as real) then -(LLR_CLIP as real) else capped
  }

  /** Clamping moves a posterior to the nearest value of the public range. */
  lemma ClampIsNearest(x: real, y: real)
    requires -(LLR_CLIP as real) <= y <= (LLR_CLIP as real)
    ensures Abs(x - Clamp(x)) <= Abs(x - y)
  {
  }

  /** Round to nearest, ties to even. */
  function Rint(x: real): (r: int)
    ensures x - 0.5 <= r as real <= x + 0.5
    ensures r as real == x - 0.5 || r as real == x + 0.5 ==> r % 2 == 0
  {
    var f := x.Floor;
    var d := x - f as real;
    if d < 0.5 || (d == 0.5 && f % 2 == 0) then f else f + 1
  }

  /** The exported posterior. */
  function Exported(x: real): int {
    Rint(Clamp(x))
  }

  /** The hard decision: bit 1 for a negative exported posterior. */
  function Decided(x: real): int {
    if Exported(x) < 0 then 1 else 0
  }

  /** Slot of column c of code block b in block-major order. */
  function OutSlot(b: nat, c: nat, n: nat): nat {
    (if b == 0 then 0 else n) + c
  }

  ghost predicate ColumnExported(out: seq<int>, col: Column, b: nat, c: nat, n: nat) {
    && |col| == Z && OutSlot(b, c, n) * Z + Z <= |out|
    && forall i: nat :: i < Z ==> At(out, OutSlot(b, c, n), i) == Exported(col[i])
  }

  ghost predicate ColumnDecided(bits: seq<int>, col: Column, b: nat, c: nat, n: nat) {
    && |col| == Z && OutSlot(b, c, n) * Z + Z <= |bits|
    && forall i: nat :: i < Z ==> At(bits, OutSlot(b, c, n), i) == Decided(col[i])
  }

  ghost predicate LaneExported(out: seq<int>, st: State, b: nat, m: nat, n: nat) {
    m <= |st.lam| && forall c: nat :: c < m ==> ColumnExported(out, st.lam[c], b, c, n)
  }

  ghost predicate LaneDecided(bits: seq<int>, st: State, b: nat, m: nat, kb: nat) {
    m <= |st.lam| && forall c: nat :: c < m ==> ColumnDecided(bits, st.lam[c], b, c, kb)
  }

  method ExportColumn(lam: array<real>, out: array<int>, ghost col: Column, b: nat, c: nat, n: nat, batch: nat)
    requires LaneCount(batch) && b < batch && c < n && out as object != lam
    requires ResidentColumn(lam[..], col, 0, c, b, batch) && OutSlot(b, c, n) * Z + Z <= out.Length
    modifies out
    ensures ColumnExported(out[..], col, b, c, n)
    ensures forall u: nat, i: nat :: i < Z && u * Z + Z <= out.Length && u != OutSlot(b, c, n) ==>
      At(out[..], u, i) == At(old(out[..]), u, i)
  {
    var d, s := OutSlot(b, c, n) * Z, Slot(c, b, batch) * Z;
    forall i: nat | i < Z
      ensures lam[s + i] == col[i]
    {
      assert At(lam[..], Slot(c, b, batch), i) == col[BitOf(i, 0, Z)];
    }
    forall i | 0 <= i < Z {
      out[d + i] := Exported(lam[s + i]);
    }
  }

  /** The hard decision reads the exported integer back. */
  method DecideColumn(out: seq<int>, bits: array<int>, ghost col: Column, b: nat, c: nat, n: nat, kb: nat)
    requires c < kb && ColumnExported(out, col, b, c, n) && OutSlot(b, c, kb) * Z + Z <= bits.Length
    modifies bits
    ensures ColumnDecided(bits[..], col, b, c, kb)
    ensures forall u: nat, i: nat :: i < Z && u * Z + Z <= bits.Length && u != OutSlot(b, c, kb) ==>
      At(bits[..], u, i) == At(old(bits[..]), u, i)
  {
    var d, s := OutSlot(b, c, kb) * Z, OutSlot(b, c, n) * Z;
    forall i: nat | i < Z
      ensures out[s + i] == Exported(col[i])
    {
      assert At(out, OutSlot(b, c, n), i) == Exported(col[i]);
    }
    forall i | 0 <= i < Z {
      bits[d + i] := if out[s + i] < 0 then 1 else 0;
    }
  }

  method ExportLane(ghost code: Code, lam: array<real>, out: array<int>, ghost st: State, b: nat, n: nat, batch: nat)
    requires LaneCount(batch) && b < batch <= 2 && n == code.n && out as object != lam
    requires ValidCode(code) && RestoredUpTo(code, lam[..], st, LastCoords(code), n, b, batch)
    requires out.Length == (if batch == 1 then n else 2 * n) * Z
    modifies out
    ensures LaneExported(out[..], st, b, n, n)
    ensures forall u: nat, i: nat :: i < Z && u * Z + Z <= out.Length && !(OutSlot(b, 0, n) <= u < OutSlot(b, n, n)) ==>
      At(out[..], u, i) == At(old(out[..]), u, i)
  {
    for c := 0 to n
      invariant LaneExported(out[..], st, b, c, n)
      invariant forall u: nat, i: nat ::
        i < Z && u * Z + Z <= out.Length && !(OutSlot(b, 0, n) <= u < OutSlot(b, c, n)) ==>
          At(out[..], u, i) == At(old(out[..]), u, i)
    {
      assert RestoredAt(lam[..], st, LastCoords(code), n, c, b, batch);
      ExportColumn(lam, out, st.lam[c], b, c, n, batch);
    }
  }

  method DecideLane(out: seq<int>, bits: array<int>, ghost st: State, b: nat, n: nat, kb: nat, batch: nat)
    requires b < batch <= 2 && kb <= n && LaneExported(out, st, b, n, n)
    requires bits.Length == (if batch == 1 then kb else 2 * kb) * Z
    modifies bits
    ensures LaneDecided(bits[..], st, b, kb, kb)
    ensures forall u: nat, i: nat ::
      i < Z && u * Z + Z <= bits.Length && !(OutSlot(b, 0, kb) <= u < OutSlot(b, kb, kb)) ==>
        At(bits[..], u, i) == At(old(bits[..]), u, i)
  {
    for c := 0 to kb
      invariant LaneDecided(bits[..], st, b, c, kb)
      invariant forall u: nat, i: nat ::
        i < Z && u * Z + Z <= bits.Length && !(OutSlot(b, 0, kb) <= u < OutSlot(b, c, kb)) ==>
          At(bits[..], u, i) == At(old(bits[..]), u, i)
    {
      DecideColumn(out, bits, st.lam[c], b, c, n, kb);
    }
  }
}
