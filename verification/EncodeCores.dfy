/** The encoder over all code blocks: each core compacts its own copy of the tables, then takes every fourth block. */
module EncodeCores {
  import opened Arith
  import opened ShiftKernel
  import opened QcMatrix
  import opened EncodeKernel
  import opened EncodeBlock

  /** Slots per column of the inverse table. */
  const BI_SLOTS: nat := 4

  /** The shift tables as the host stores them, -1 for an empty entry. */
  datatype HostTables = HostTables(a: seq<int>, bi: seq<int>, c: seq<int>, d: seq<int>)

  ghost predicate HostOk(h: HostTables, kb: nat, g: nat, rows: nat) {
    && 2 <= kb <= MAX_COLS && 0 < g <= MAX_COLS
    && TableFits(|h.a|, g, kb, 1) && TableFits(|h.bi|, g, g, BI_SLOTS)
    && TableFits(|h.c|, rows, kb, 1) && TableFits(|h.d|, rows, g, 1)
    && ShiftsOk(h.a) && ShiftsOk(h.bi) && ShiftsOk(h.c) && ShiftsOk(h.d)
  }

  lemma RowInTable(len: nat, rows: nat, cols: nat, slots: nat, r: nat)
    requires LaneCount(slots) && TableFits(len, rows, cols, slots) && r < rows
    ensures RowStart(r, Slot(cols, 0, slots)) + Slot(cols, 0, slots) <= len
  {
    RowFits(r, rows, Slot(cols, 0, slots));
  }

  /** The matrix a host table stands for. */
  ghost function MatrixOf(table: seq<int>, rows: nat, cols: nat, slots: nat): (m: Matrix)
    requires LaneCount(slots) && TableFits(|table|, rows, cols, slots)
    ensures |m| == rows
  {
    seq(rows, r requires 0 <= r < rows =>
      RowInTable(|table|, rows, cols, slots, r);
      TableRow(table, r, cols, slots))
  }

  ghost function TablesOf(h: HostTables, kb: nat, g: nat, rows: nat): (t: Tables)
    requires HostOk(h, kb, g, rows)
    ensures TablesOk(t, kb, g) && |t.c| == rows
  {
    MatrixWithin(h.a, g, kb, 1);
    MatrixWithin(h.bi, g, g, BI_SLOTS);
    MatrixWithin(h.c, rows, kb, 1);
    MatrixWithin(h.d, rows, g, 1);
    Tables(MatrixOf(h.a, g, kb, 1), MatrixOf(h.bi, g, g, BI_SLOTS), MatrixOf(h.c, rows, kb, 1),
           MatrixOf(h.d, rows, g, 1))
  }

  lemma MatrixWithin(table: seq<int>, rows: nat, cols: nat, slots: nat)
    requires LaneCount(slots) && TableFits(|table|, rows, cols, slots) && ShiftsOk(table)
    ensures MatrixOk(MatrixOf(table, rows, cols, slots), cols)
  {
    var m := MatrixOf(table, rows, cols, slots);
    forall r | 0 <= r < rows
      ensures Within(m[r], cols)
    {
      RowInTable(|table|, rows, cols, slots, r);
      var base, width := RowStart(r, Slot(cols, 0, slots)), Slot(cols, 0, slots);
      TermsWithin(table[base..base + width], slots, cols, 0, cols);
    }
  }

  /** Compacting in place leaves the matrix's circulants, row by row. */
  method LoadTable(host: seq<int>, rows: nat, cols: nat, slots: nat) returns (table: array<int>)
    requires LaneCount(slots) && TableFits(|host|, rows, cols, slots)
    ensures fresh(table) && TableHolds(table[..], Slot(cols, 0, slots), MatrixOf(host, rows, cols, slots))
  {
    table := new int[|host|](i requires 0 <= i < |host| => host[i]);
    assert table[..] == host;
    CompactShiftRows(table, rows, cols, slots);
    ghost var m, width := MatrixOf(host, rows, cols, slots), Slot(cols, 0, slots);
    forall r: nat | r < rows
      ensures RowHeld(table[..], width, m, r)
    {
      assert RowCompacted(table[..], host, r, cols, slots);
    }
  }

  method LoadTables(h: HostTables, kb: nat, g: nat, rows: nat) returns (s: Shifts)
    requires HostOk(h, kb, g, rows)
    ensures ShiftsHold(s, TablesOf(h, kb, g, rows), kb, g)
  {
    var a := LoadTable(h.a, g, kb, 1);
    var bi := LoadTable(h.bi, g, g, BI_SLOTS);
    var c := LoadTable(h.c, rows, kb, 1);
    var d := LoadTable(h.d, rows, g, 1);
    s := Shifts(a, bi, c, d);
    assert Slot(g, 0, BI_SLOTS) == 4 * g && Slot(kb, 0, 1) == kb && Slot(g, 0, 1) == g;
  }

  ghost predicate InfosOk(infos: seq<seq<int>>, kb: nat) {
    forall cb :: 0 <= cb < |infos| ==> |infos[cb]| == kb * Z
  }

  /** The block's output is its codeword without the first two columns. */
  ghost predicate BlockEncoded(out: seq<int>, t: Tables, info: seq<int>, kb: nat)
    requires TablesOk(t, kb, |t.a|) && |info| == kb * Z
  {
    && |out| == (kb - 2 + |t.a| + |t.c|) * Z
    && BlocksUpTo(out, Codeword(t, InfoBlocks(info, kb))[2..], kb - 2 + |t.a| + |t.c|)
  }

  ghost predicate EncodedAt(outs: seq<seq<int>>, t: Tables, infos: seq<seq<int>>, kb: nat, cb: nat)
    requires TablesOk(t, kb, |t.a|) && InfosOk(infos, kb) && cb < |infos| == |outs|
  {
    BlockEncoded(outs[cb], t, infos[cb], kb)
  }

  /** Every block before cb that belongs to a core in cores is encoded. */
  ghost predicate EncodedUpTo(outs: seq<seq<int>>, t: Tables, infos: seq<seq<int>>, kb: nat, cores: set<nat>,
                              core: nat, n: nat)
    requires TablesOk(t, kb, |t.a|) && InfosOk(infos, kb)
  {
    && |outs| == |infos|
    && forall cb: nat :: cb < |infos| && (cb % BLOCK_DIM in cores || (cb % BLOCK_DIM == core && cb < n)) ==>
         EncodedAt(outs, t, infos, kb, cb)
  }

  /** One core's share. */
  method EncodeCore(h: HostTables, infos: seq<seq<int>>, kb: nat, g: nat, rows: nat, core: nat, outs: array<seq<int>>,
                    ghost cores: set<nat>)
    requires HostOk(h, kb, g, rows) && InfosOk(infos, kb) && core < BLOCK_DIM && outs.Length == |infos|
    requires EncodedUpTo(outs[..], TablesOf(h, kb, g, rows), infos, kb, cores, core, 0)
    modifies outs
    ensures EncodedUpTo(outs[..], TablesOf(h, kb, g, rows), infos, kb, cores + {core}, core, 0)
  {
    ghost var t := TablesOf(h, kb, g, rows);
    if core >= |infos| {
      return;
    }
    var s := LoadTables(h, kb, g, rows);
    var cb := core;
    while cb < |infos|
      invariant cb % BLOCK_DIM == core && ShiftsHold(s, t, kb, g)
      invariant EncodedUpTo(outs[..], t, infos, kb, cores, core, cb)
    {
      ghost var was := outs[..];
      var out := EncodeOne(s, t, infos[cb], kb, g, rows);
      outs[cb] := out;
      EncodedStep(was, outs[..], t, infos, kb, cores, core, cb);
      cb := cb + BLOCK_DIM;
    }
  }

  lemma EncodedStep(was: seq<seq<int>>, now: seq<seq<int>>, t: Tables, infos: seq<seq<int>>, kb: nat, cores: set<nat>,
                    core: nat, cb: nat)
    requires TablesOk(t, kb, |t.a|) && InfosOk(infos, kb) && EncodedUpTo(was, t, infos, kb, cores, core, cb)
    requires cb < |infos| == |now| && cb % BLOCK_DIM == core && now == was[cb := now[cb]]
    requires BlockEncoded(now[cb], t, infos[cb], kb)
    ensures EncodedUpTo(now, t, infos, kb, cores, core, cb + BLOCK_DIM)
  {
    var n := cb + BLOCK_DIM;
    forall b: nat | b < |infos| && (b % BLOCK_DIM in cores || (b % BLOCK_DIM == core && b < n))
      ensures EncodedAt(now, t, infos, kb, b)
    {
      if b != cb {
        assert EncodedAt(was, t, infos, kb, b);
      }
    }
  }

  /** All cores: every block is encoded, whichever core took it. */
  method EncodeAll(h: HostTables, infos: seq<seq<int>>, kb: nat, g: nat, rows: nat) returns (outs: seq<seq<int>>)
    requires HostOk(h, kb, g, rows) && InfosOk(infos, kb)
    ensures |outs| == |infos|
    ensures forall cb: nat :: cb < |infos| ==> EncodedAt(outs, TablesOf(h, kb, g, rows), infos, kb, cb)
  {
    ghost var t := TablesOf(h, kb, g, rows);
    var buf := new seq<int>[|infos|](_ => []);
    EncodeCore(h, infos, kb, g, rows, CoreOf(0), buf, {});
    EncodeCore(h, infos, kb, g, rows, CoreOf(1), buf, {2});
    EncodeCore(h, infos, kb, g, rows, CoreOf(2), buf, {2, 3});
    EncodeCore(h, infos, kb, g, rows, CoreOf(3), buf, {2, 3, 0});
    outs := buf[..];
    forall cb: nat | cb < |infos|
      ensures EncodedAt(outs, t, infos, kb, cb)
    {
      assert cb % BLOCK_DIM in {2, 3, 0} + {1};
    }
  }
}
