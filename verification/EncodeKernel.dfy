/**
 The encoder kernel: in-place table compaction, rotations as plain offsets into doubled blocks,
 integer accumulation masked to one bit.
 */
module EncodeKernel {
  import opened Arith
  import opened LayeredDecoder
  import opened ShiftKernel
  import opened QcMatrix

  /** A block and its copy. */
  const Z_PAD: nat := 768

  /** Columns whose packed offsets fit a 16-bit entry. */
  const MAX_COLS: nat := 42

  // ---------- shift tables ----------

  predicate ShiftsOk(row: seq<int>) {
    forall k :: 0 <= k < |row| ==> -1 <= row[k] < Z
  }

  /** The circulants among the entries read before column bc, slot. */
  function TermsUpTo(row: seq<int>, slots: nat, bc: nat, slot: nat): (t: TermRow)
    requires LaneCount(slots) && slot <= slots && Slot(bc, slot, slots) <= |row|
    ensures |t| <= Slot(bc, slot, slots)
    decreases bc, slot
  {
    if slot > 0 then
      var s := row[Slot(bc, slot - 1, slots)];
      TermsUpTo(row, slots, bc, slot - 1) + if s >= 0 then [Term(bc, s)] else []
    else if bc > 0 then TermsUpTo(row, slots, bc - 1, slots)
    else []
  }

  /** The circulants of a whole row of cols columns with the given slots each. */
  function Terms(row: seq<int>, slots: nat, cols: nat): (t: TermRow)
    requires LaneCount(slots) && Slot(cols, 0, slots) == |row|
    ensures |t| <= |row|
  {
    TermsUpTo(row, slots, cols, 0)
  }

  /** Entries equal to s among the m from `at` on. */
  function EntriesEqual(row: seq<int>, at: nat, m: nat, s: int): nat
    requires at + m <= |row|
  {
    if m == 0 then 0 else EntriesEqual(row, at, m - 1, s) + if row[at + m - 1] == s then 1 else 0
  }

  /** How often a circulant is listed. */
  function Listed(t: TermRow, e: Term): nat {
    if t == [] then 0 else Listed(t[..|t| - 1], e) + if t[|t| - 1] == e then 1 else 0
  }

  lemma AppendTerm(t: TermRow, e: Term, x: Term)
    ensures Listed(t + [e], x) == Listed(t, x) + if e == x then 1 else 0
  {
    assert (t + [e])[..|t|] == t;
  }

  /** One more entry of the row. */
  lemma NextTerm(row: seq<int>, slots: nat, bc: nat, slot: nat, p: nat, e: Term)
    requires LaneCount(slots) && slot < slots && p == Slot(bc, slot, slots) < |row|
    requires Slot(bc, slot + 1, slots) <= |row|
    ensures Listed(TermsUpTo(row, slots, bc, slot + 1), e)
         == Listed(TermsUpTo(row, slots, bc, slot), e) + if e.col == bc && row[p] == e.shift then 1 else 0
  {
    var t := TermsUpTo(row, slots, bc, slot);
    if row[p] >= 0 {
      AppendTerm(t, Term(bc, row[p]), e);
    } else {
      assert t + [] == t;
    }
  }

  lemma PreviousColumn(row: seq<int>, slots: nat, bc: nat)
    requires LaneCount(slots) && bc > 0 && Slot(bc, 0, slots) <= |row|
    ensures TermsUpTo(row, slots, bc, 0) == TermsUpTo(row, slots, bc - 1, slots)
  {
  }

  /** Entries of the circulant's column, among those read before column bc, slot, that hold its shift. */
  function Occurrences(row: seq<int>, slots: nat, bc: nat, slot: nat, e: Term, at: nat): nat
    requires slot <= slots && at + slots <= |row|
  {
    if e.col < bc then EntriesEqual(row, at, slots, e.shift)
    else if e.col == bc then EntriesEqual(row, at, slot, e.shift)
    else 0
  }

  lemma NextOccurrence(row: seq<int>, slots: nat, bc: nat, slot: nat, e: Term, at: nat, p: nat)
    requires LaneCount(slots) && slot < slots && at == Slot(e.col, 0, slots) && at + slots <= |row|
    requires p == Slot(bc, slot, slots) < |row|
    ensures Occurrences(row, slots, bc, slot + 1, e, at)
         == Occurrences(row, slots, bc, slot, e, at) + if e.col == bc && row[p] == e.shift then 1 else 0
  {
    assert e.col == bc ==> p == at + slot;
  }

  /** A circulant is listed once for every slot of its column that holds its shift. */
  lemma {:induction false} ColumnTerms(row: seq<int>, slots: nat, bc: nat, slot: nat, e: Term, at: nat)
    requires LaneCount(slots) && slot <= slots && Slot(bc, slot, slots) <= |row|
    requires at == Slot(e.col, 0, slots) && at + slots <= |row|
    ensures Listed(TermsUpTo(row, slots, bc, slot), e) == Occurrences(row, slots, bc, slot, e, at)
    decreases bc, slot
  {
    if slot > 0 {
      var p, m := Slot(bc, slot - 1, slots), slot - 1;
      ColumnTerms(row, slots, bc, m, e, at);
      NextTerm(row, slots, bc, m, p, e);
      NextOccurrence(row, slots, bc, m, e, at, p);
    } else if bc > 0 {
      PreviousColumn(row, slots, bc);
      ColumnTerms(row, slots, bc - 1, slots, e, at);
    }
  }

  /** A row of four, two or one entries a column lists a circulant as often as its column holds the shift. */
  lemma TermsAreEntries(row: seq<int>, slots: nat, cols: nat, e: Term, at: nat)
    requires LaneCount(slots) && Slot(cols, 0, slots) == |row| && e.col < cols && at == slots * e.col
    ensures at + slots <= |row| && Listed(Terms(row, slots, cols), e) == EntriesEqual(row, at, slots, e.shift)
  {
    ColumnTerms(row, slots, cols, 0, e, at);
  }

  lemma {:induction false} TermsWithin(row: seq<int>, slots: nat, bc: nat, slot: nat, cols: nat)
    requires LaneCount(slots) && slot <= slots && Slot(bc, slot, slots) <= |row| && ShiftsOk(row)
    requires bc < cols || (bc == cols && slot == 0)
    ensures Within(TermsUpTo(row, slots, bc, slot), cols)
    decreases bc, slot
  {
    if slot > 0 {
      TermsWithin(row, slots, bc, slot - 1, cols);
    } else if bc > 0 {
      TermsWithin(row, slots, bc - 1, slots, cols);
    }
  }

  /** The compacted form of a circulant: an offset into the doubled source blocks. */
  function PackedEdge(t: Term): (p: int)
  {
    Wrap16(t.col * Z_PAD + t.shift)
  }

  lemma PackedEdgeFits(t: Term)
    requires t.col < MAX_COLS && t.shift < Z
    ensures PackedEdge(t) == t.col * Z_PAD + t.shift >= 0
  {
  }

  ghost predicate PackedPrefix(table: seq<int>, base: nat, t: TermRow) {
    base + |t| <= |table| && forall k :: 0 <= k < |t| ==> table[base + k] == PackedEdge(t[k])
  }

  /** The row's circulants, packed to the front; -1 after them. */
  ghost predicate Compacted(table: seq<int>, base: nat, width: nat, t: TermRow) {
    && |t| <= width && base + width <= |table| && PackedPrefix(table, base, t)
    && forall p :: base + |t| <= p < base + width ==> table[p] == -1
  }

  /** Pack one entry if it is a circulant. The write cursor never passes the read position. */
  method CompactEntry(table: array<int>, base: nat, write: nat, bc: nat, read: nat, ghost t: TermRow)
    returns (write': nat)
    requires write <= read && base + read < table.Length && |t| == write && PackedPrefix(table[..], base, t)
    modifies table
    ensures KeptOutside(table[..], old(table[..]), base + write, base + write')
    ensures var s := old(table[base + read]);
            var t' := t + if s >= 0 then [Term(bc, s)] else [];
            write' == |t'| && PackedPrefix(table[..], base, t')
  {
    write' := write;
    var shift := table[base + read];
    if shift >= 0 {
      table[base + write] := Wrap16(bc * Z_PAD + shift);
      write' := write + 1;
    }
  }

  /** What is left of a row while its first entries have been packed: n entries read, t kept. */
  ghost predicate Packing(now: seq<int>, was: seq<int>, base: nat, width: nat, t: TermRow, read: nat) {
    && |t| <= read <= width && base + width <= |was|
    && PackedPrefix(now, base, t) && KeptOutside(now, was, base, base + |t|)
  }

  lemma StillUnread(mid: seq<int>, was: seq<int>, base: nat, width: nat, t: TermRow, read: nat, row: seq<int>)
    requires Packing(mid, was, base, width, t, read) && row == was[base..base + width] && read < width
    ensures mid[base + read] == row[read]
  {
  }

  lemma PackingStep(mid: seq<int>, now: seq<int>, was: seq<int>, base: nat, width: nat, t: TermRow, t': TermRow,
                    read: nat)
    requires Packing(mid, was, base, width, t, read) && read < width && |t| <= |t'| <= |t| + 1
    requires KeptOutside(now, mid, base + |t|, base + |t'|) && PackedPrefix(now, base, t')
    ensures Packing(now, was, base, width, t', read + 1)
  {
  }

  /** Pack the entry of one slot. */
  method CompactSlot(table: array<int>, base: nat, write: nat, bc: nat, slot: nat, slots: nat, ghost was: seq<int>,
                     ghost row: seq<int>)
    returns (write': nat)
    requires LaneCount(slots) && slot < slots && Slot(bc, slot, slots) < |row| && base + |row| <= |was|
    requires row == was[base..base + |row|] && |was| == table.Length
    requires write == |TermsUpTo(row, slots, bc, slot)|
    requires Packing(table[..], was, base, |row|, TermsUpTo(row, slots, bc, slot), Slot(bc, slot, slots))
    modifies table
    ensures write' == |TermsUpTo(row, slots, bc, slot + 1)|
    ensures Packing(table[..], was, base, |row|, TermsUpTo(row, slots, bc, slot + 1), Slot(bc, slot, slots) + 1)
  {
    var read := Slot(bc, slot, slots);
    ghost var t, mid := TermsUpTo(row, slots, bc, slot), table[..];
    StillUnread(mid, was, base, |row|, t, read, row);
    write' := CompactEntry(table, base, write, bc, read, t);
    PackingStep(mid, table[..], was, base, |row|, t, TermsUpTo(row, slots, bc, slot + 1), read);
  }

  method CompactColumn(table: array<int>, base: nat, write: nat, bc: nat, cols: nat, slots: nat, ghost was: seq<int>,
                       ghost row: seq<int>)
    returns (write': nat)
    requires LaneCount(slots) && bc < cols && base + Slot(cols, 0, slots) <= |was| == table.Length
    requires row == was[base..base + Slot(cols, 0, slots)]
    requires write == |TermsUpTo(row, slots, bc, 0)|
    requires Packing(table[..], was, base, |row|, TermsUpTo(row, slots, bc, 0), Slot(bc, 0, slots))
    modifies table
    ensures write' == |TermsUpTo(row, slots, bc, slots)|
    ensures Packing(table[..], was, base, |row|, TermsUpTo(row, slots, bc, slots), Slot(bc, slots, slots))
  {
    write' := write;
    for slot := 0 to slots
      invariant write' == |TermsUpTo(row, slots, bc, slot)|
      invariant Packing(table[..], was, base, |row|, TermsUpTo(row, slots, bc, slot), Slot(bc, slot, slots))
    {
      write' := CompactSlot(table, base, write', bc, slot, slots, was, row);
    }
  }

  method ClearTail(table: array<int>, from: nat, to: nat)
    requires from <= to <= table.Length
    modifies table
    ensures KeptOutside(table[..], old(table[..]), from, to)
    ensures forall p :: from <= p < to ==> table[p] == -1
  {
    for i := from to to
      invariant KeptOutside(table[..], old(table[..]), from, i)
      invariant forall p :: from <= p < i ==> table[p] == -1
    {
      table[i] := -1;
    }
  }

  lemma PackingDone(mid: seq<int>, now: seq<int>, was: seq<int>, base: nat, width: nat, t: TermRow)
    requires Packing(mid, was, base, width, t, width) && KeptOutside(now, mid, base + |t|, base + width)
    requires forall p :: base + |t| <= p < base + width ==> now[p] == -1
    ensures Compacted(now, base, width, t) && KeptOutside(now, was, base, base + width)
  {
  }

  /** Pack all circulants of a row to its front. */
  method PackRow(table: array<int>, base: nat, cols: nat, slots: nat, ghost was: seq<int>, ghost row: seq<int>)
    returns (write: nat)
    requires LaneCount(slots) && base + Slot(cols, 0, slots) <= table.Length && was == table[..]
    requires row == was[base..base + Slot(cols, 0, slots)]
    modifies table
    ensures write == |Terms(row, slots, cols)| <= Slot(cols, 0, slots)
    ensures Packing(table[..], was, base, |row|, Terms(row, slots, cols), Slot(cols, 0, slots))
  {
    write := 0;
    for bc := 0 to cols
      invariant write == |TermsUpTo(row, slots, bc, 0)|
      invariant Packing(table[..], was, base, |row|, TermsUpTo(row, slots, bc, 0), Slot(bc, 0, slots))
    {
      write := CompactColumn(table, base, write, bc, cols, slots, was, row);
    }
  }

  method CompactRow(table: array<int>, base: nat, cols: nat, slots: nat)
    requires LaneCount(slots) && base + Slot(cols, 0, slots) <= table.Length
    modifies table
    ensures KeptOutside(table[..], old(table[..]), base, base + Slot(cols, 0, slots))
    ensures Compacted(table[..], base, Slot(cols, 0, slots),
                      Terms(old(table[..])[base..base + Slot(cols, 0, slots)], slots, cols))
  {
    ghost var was := table[..];
    ghost var row := was[base..base + Slot(cols, 0, slots)];
    var write := PackRow(table, base, cols, slots, was, row);
    ghost var mid := table[..];
    ClearTail(table, base + write, base + Slot(cols, 0, slots));
    PackingDone(mid, table[..], was, base, Slot(cols, 0, slots), Terms(row, slots, cols));
  }

  /** Start of row r in a table of the given row width. */
  function RowStart(r: nat, width: nat): nat {
    if r == 0 then 0 else RowStart(r - 1, width) + width
  }

  lemma {:induction false} RowStartGrows(r: nat, r': nat, width: nat)
    requires r < r'
    ensures RowStart(r, width) + width <= RowStart(r', width)
  {
    if r < r' - 1 {
      RowStartGrows(r, r' - 1, width);
    }
  }

  /** The circulants of row r of a table as stored by the host. */
  function TableRow(table: seq<int>, r: nat, cols: nat, slots: nat): TermRow
    requires LaneCount(slots) && RowStart(r, Slot(cols, 0, slots)) + Slot(cols, 0, slots) <= |table|
  {
    var base := RowStart(r, Slot(cols, 0, slots));
    Terms(table[base..base + Slot(cols, 0, slots)], slots, cols)
  }

  ghost predicate RowCompacted(now: seq<int>, was: seq<int>, r: nat, cols: nat, slots: nat)
    requires LaneCount(slots)
  {
    && |now| == |was| && RowStart(r, Slot(cols, 0, slots)) + Slot(cols, 0, slots) <= |was|
    && Compacted(now, RowStart(r, Slot(cols, 0, slots)), Slot(cols, 0, slots), TableRow(was, r, cols, slots))
  }

  ghost predicate RowsCompacted(now: seq<int>, was: seq<int>, rows: nat, cols: nat, slots: nat)
    requires LaneCount(slots)
  {
    forall r: nat :: r < rows ==> RowCompacted(now, was, r, cols, slots)
  }

  lemma StaysCompacted(mid: seq<int>, now: seq<int>, base: nat, width: nat, t: TermRow, from: nat)
    requires Compacted(mid, base, width, t) && base + width <= from && KeptOutside(now, mid, from, from + width)
    ensures Compacted(now, base, width, t)
  {
  }

  lemma RowsCompactedGrow(was: seq<int>, mid: seq<int>, now: seq<int>, r: nat, cols: nat, slots: nat)
    requires LaneCount(slots) && RowsCompacted(mid, was, r, cols, slots) && |mid| == |was|
    requires var width := Slot(cols, 0, slots);
             KeptOutside(now, mid, RowStart(r, width), RowStart(r, width) + width)
    requires RowCompacted(now, was, r, cols, slots)
    ensures RowsCompacted(now, was, r + 1, cols, slots)
  {
    forall r': nat | r' < r + 1
      ensures RowCompacted(now, was, r', cols, slots)
    {
      if r' < r {
        var width := Slot(cols, 0, slots);
        assert RowCompacted(mid, was, r', cols, slots);
        RowStartGrows(r', r, width);
        StaysCompacted(mid, now, RowStart(r', width), width, TableRow(was, r', cols, slots), RowStart(r, width));
      }
    }
  }

  ghost predicate TableFits(len: nat, rows: nat, cols: nat, slots: nat)
    requires LaneCount(slots)
  {
    RowStart(rows, Slot(cols, 0, slots)) <= len
  }

  /** Compact every row of a table in place. */
  method CompactShiftRows(table: array<int>, rows: nat, cols: nat, slots: nat)
    requires LaneCount(slots) && TableFits(table.Length, rows, cols, slots)
    modifies table
    ensures RowsCompacted(table[..], old(table[..]), rows, cols, slots)
  {
    var width, base := Slot(cols, 0, slots), 0;
    for br := 0 to rows
      invariant base == RowStart(br, width)
      invariant RowsCompacted(table[..], old(table[..]), br, cols, slots)
      invariant KeptOutside(table[..], old(table[..]), 0, base)
    {
      RowFits(br, rows, width);
      ghost var mid := table[..];
      CompactRow(table, base, cols, slots);
      assert mid[base..base + width] == old(table[..])[base..base + width];
      RowsCompactedGrow(old(table[..]), mid, table[..], br, cols, slots);
      base := base + width;
    }
  }

  lemma RowFits(r: nat, rows: nat, width: nat)
    requires r < rows
    ensures RowStart(r, width) + width <= RowStart(rows, width)
  {
    RowStartGrows(r, rows, width);
  }

  // ---------- doubled blocks ----------

  ghost predicate BlockDoubled(src: seq<int>, block: seq<int>, c: nat) {
    && |block| == Z && c * Z_PAD + Z_PAD <= |src|
    && forall j: nat :: j < Z ==> src[c * Z_PAD + j] == block[j] && src[c * Z_PAD + Z + j] == block[j]
  }

  /** src holds every block of x twice in a row. */
  ghost predicate Doubled(src: seq<int>, x: Word) {
    && Blocks(x, |x|)
    && forall c: nat :: c < |x| ==> BlockDoubled(src, x[c], c)
  }

  /** An offset into a doubled block reads the block rotated. */
  lemma OffsetRotates(src: seq<int>, x: Word, t: Term, i: nat)
    requires Doubled(src, x) && t.col < |x| <= MAX_COLS && t.shift < Z && i < Z
    ensures 0 <= PackedEdge(t) + i < |src| && src[PackedEdge(t) + i] == Picked(t, x, i)
  {
    PackedEdgeFits(t);
    assert BlockDoubled(src, x[t.col], t.col);
    if t.shift + i >= Z {
      var j := t.shift + i - Z;
      assert src[t.col * Z_PAD + Z + j] == x[t.col][j];
    }
  }

  // ---------- accumulation ----------

  /** Element i of the block at `at`. */
  function Lane(s: seq<int>, at: nat, i: nat): int
    requires at + i < |s|
  {
    s[at + i]
  }

  /** The block at `at` has the parities of acc plus the sums of t over x. */
  ghost predicate Accumulated(dst: seq<int>, at: nat, acc: seq<int>, t: TermRow, x: Word)
    requires Blocks(x, |x|) && Within(t, |x|)
  {
    && |acc| == Z && at + Z <= |dst|
    && forall i: nat :: i < Z ==> Lane(dst, at, i) % 2 == (acc[i] + Sum(t, x, i)) % 2
  }

  lemma WrapKeepsParity(a: int)
    ensures Wrap16(a) % 2 == a % 2
  {
  }

  ghost predicate LaneAdded(now: seq<int>, was: seq<int>, at: nat, src: seq<int>, from: nat, i: nat) {
    && |now| == |was| && at + i < |now| && from + i < |src|
    && Lane(now, at, i) % 2 == (Lane(was, at, i) + Lane(src, from, i)) % 2
  }

  ghost predicate RunAdded(now: seq<int>, was: seq<int>, at: nat, src: seq<int>, from: nat) {
    forall i: nat :: i < Z ==> LaneAdded(now, was, at, src, from, i)
  }

  /** One 16-bit vector addition of a block read at an offset. */
  method AddRun(dst: array<int>, at: nat, src: array<int>, from: nat)
    requires dst != src && at + Z <= dst.Length && from + Z <= src.Length
    modifies dst
    ensures RunAdded(dst[..], old(dst[..]), at, src[..], from)
    ensures KeptOutside(dst[..], old(dst[..]), at, at + Z)
  {
    ghost var was := dst[..];
    forall e | 0 <= e < Z {
      dst[at + e] := Wrap16(dst[at + e] + src[from + e]);
    }
    ghost var now, adds := dst[..], src[..];
    forall i: nat | i < Z
      ensures LaneAdded(now, was, at, adds, from, i)
    {
      WrapKeepsParity(was[at + i] + adds[from + i]);
    }
  }

  method CopyBlock(dst: array<int>, at: nat, src: array<int>, from: nat)
    requires dst != src && at + Z <= dst.Length && from + Z <= src.Length
    modifies dst
    ensures forall i: nat :: i < Z ==> Lane(dst[..], at, i) == Lane(src[..], from, i)
    ensures KeptOutside(dst[..], old(dst[..]), at, at + Z)
  {
    forall e | 0 <= e < Z {
      dst[at + e] := src[from + e];
    }
  }

  lemma AccumulatedStep(was: seq<int>, now: seq<int>, at: nat, acc: seq<int>, t: TermRow, x: Word, k: nat,
                        src: seq<int>, from: nat)
    requires Blocks(x, |x|) && Within(t, |x|) && k < |t| && |x| <= MAX_COLS && Doubled(src, x)
    requires Within(t[..k], |x|) && Accumulated(was, at, acc, t[..k], x) && |now| == |was| && from == PackedEdge(t[k])
    requires from + Z <= |src|
    requires RunAdded(now, was, at, src, from)
    ensures Within(t[..k + 1], |x|) && Accumulated(now, at, acc, t[..k + 1], x)
  {
    assert t[..k + 1][..k] == t[..k];
    forall i: nat | i < Z
      ensures Lane(now, at, i) % 2 == (acc[i] + Sum(t[..k + 1], x, i)) % 2
    {
      assert LaneAdded(now, was, at, src, from, i);
      OffsetRotates(src, x, t[k], i);
      ParitiesAdd(Lane(was, at, i), acc[i] + Sum(t[..k], x, i), Picked(t[k], x, i), Picked(t[k], x, i));
    }
  }

  lemma PackedEntry(table: seq<int>, base: nat, width: nat, t: TermRow, src: seq<int>, x: Word, k: nat)
    requires Compacted(table, base, width, t) && k < width && Within(t, |x|) && |x| <= MAX_COLS && Doubled(src, x)
    ensures table[base + k] >= 0 <==> k < |t|
    ensures k < |t| ==> table[base + k] == PackedEdge(t[k]) && PackedEdge(t[k]) + Z <= |src|
  {
    if k < |t| {
      PackedEdgeFits(t[k]);
      OffsetRotates(src, x, t[k], Z - 1);
    }
  }

  /** Add the packed edges from position first on; stop at the first -1. */
  method AccumulatePackedEdges(dst: array<int>, at: nat, src: array<int>, table: array<int>, base: nat, width: nat,
                               first: nat, ghost acc: seq<int>, ghost t: TermRow, ghost x: Word)
    requires dst != src && dst != table && Doubled(src[..], x) && |x| <= MAX_COLS
    requires Compacted(table[..], base, width, t) && Within(t, |x|) && first <= |t|
    requires Within(t[..first], |x|) && Accumulated(dst[..], at, acc, t[..first], x)
    modifies dst
    ensures Accumulated(dst[..], at, acc, t, x)
    ensures KeptOutside(dst[..], old(dst[..]), at, at + Z)
  {
    var i := first;
    ghost var srcs, entries := src[..], table[..];
    while i < width
      invariant first <= i <= |t| && Within(t[..i], |x|)
      invariant Accumulated(dst[..], at, acc, t[..i], x)
      invariant KeptOutside(dst[..], old(dst[..]), at, at + Z)
    {
      PackedEntry(entries, base, width, t, srcs, x, i);
      var packed := table[base + i];
      if packed < 0 {
        break;
      }
      ghost var was := dst[..];
      AddRun(dst, at, src, packed);
      AccumulatedStep(was, dst[..], at, acc, t, x, i, srcs, packed);
      i := i + 1;
    }
    assert t[..i] == t;
  }

  /** The block at `at` is the product over GF(2). */
  ghost predicate Multiplied(dst: seq<int>, at: nat, acc: seq<int>, t: TermRow, x: Word)
    requires Blocks(x, |x|) && Within(t, |x|)
  {
    && |acc| == Z && at + Z <= |dst|
    && forall i: nat :: i < Z ==> Lane(dst, at, i) == (acc[i] + Sum(t, x, i)) % 2
  }

  /** Keep the lowest bit of every lane. */
  method MaskBlock(dst: array<int>, at: nat, ghost acc: seq<int>, ghost t: TermRow, ghost x: Word)
    requires Blocks(x, |x|) && Within(t, |x|) && Accumulated(dst[..], at, acc, t, x)
    modifies dst
    ensures Multiplied(dst[..], at, acc, t, x)
    ensures KeptOutside(dst[..], old(dst[..]), at, at + Z)
  {
    forall e | 0 <= e < Z {
      dst[at + e] := dst[at + e] % 2;
    }
  }

  method ZeroBlock(dst: array<int>, at: nat)
    requires at + Z <= dst.Length
    modifies dst
    ensures forall i: nat :: i < Z ==> Lane(dst[..], at, i) == 0
    ensures KeptOutside(dst[..], old(dst[..]), at, at + Z)
  {
    forall e | 0 <= e < Z {
      dst[at + e] := 0;
    }
  }

  function NoSum(): (acc: seq<int>)
    ensures |acc| == Z && forall i :: 0 <= i < Z ==> acc[i] == 0
  {
    seq(Z, i => 0)
  }

  lemma FirstEdge(dst: seq<int>, at: nat, src: seq<int>, from: nat, t: TermRow, x: Word)
    requires t != [] && Within(t, |x|) && |x| <= MAX_COLS && Doubled(src, x) && from == PackedEdge(t[0])
    requires at + Z <= |dst| && from + Z <= |src|
    requires forall i: nat :: i < Z ==> Lane(dst, at, i) == Lane(src, from, i)
    ensures Within(t[..1], |x|) && Accumulated(dst, at, NoSum(), t[..1], x)
  {
    forall i: nat | i < Z
      ensures Lane(dst, at, i) % 2 == (NoSum()[i] + Sum(t[..1], x, i)) % 2
    {
      OffsetRotates(src, x, t[0], i);
      assert t[..1][..0] == [];
    }
  }

  /** One block row times the source blocks. */
  method SpmvBlockRow(dst: array<int>, at: nat, src: array<int>, table: array<int>, base: nat, width: nat,
                      ghost t: TermRow, ghost x: Word)
    requires dst != src && dst != table && Doubled(src[..], x) && |x| <= MAX_COLS && at + Z <= dst.Length
    requires Compacted(table[..], base, width, t) && Within(t, |x|) && width > 0
    modifies dst
    ensures Multiplied(dst[..], at, NoSum(), t, x)
    ensures KeptOutside(dst[..], old(dst[..]), at, at + Z)
  {
    PackedEntry(table[..], base, width, t, src[..], x, 0);
    var first := table[base];
    if first < 0 {
      ZeroBlock(dst, at);
      return;
    }
    CopyBlock(dst, at, src, first);
    FirstEdge(dst[..], at, src[..], first, t, x);
    AccumulatePackedEdges(dst, at, src, table, base, width, 1, NoSum(), t, x);
    MaskBlock(dst, at, NoSum(), t, x);
  }
}
