/**
 The decoder's precomputed graph: the host packs the dense table edge by edge, the kernel turns the
 packed rows into two plans of relative rotations and re-partitions every row by shift class.

 A column is never rotated back after a row, so what a gather needs is the rotation relative to the
 coordinate the column was left in. Iteration zero starts from coordinate zero everywhere; later
 iterations start where the previous one ended.
 */
module GraphPlan {
  import opened Arith
  import opened LayeredDecoder

  /** Row stride of the packed tables. */
  const MAX_DEG: nat := 19

  // ---------- packed rows ----------

  /** The incident columns of a table row among the first m, in ascending order. */
  function EdgesOf(row: seq<int>, m: nat): (e: seq<nat>)
    requires m <= |row|
    ensures |e| <= m
    ensures forall k :: 0 <= k < |e| ==> e[k] < m && row[e[k]] >= 0
  {
    if m == 0 then [] else EdgesOf(row, m - 1) + if row[m - 1] >= 0 then [m - 1] else []
  }

  /** Each incident column is listed exactly once. */
  lemma {:induction false} EdgesListed(row: seq<int>, m: nat)
    requires m <= |row|
    ensures AllDistinct(EdgesOf(row, m))
    ensures forall c: nat :: c in EdgesOf(row, m) <==> c < m && row[c] >= 0
  {
    if m > 0 {
      EdgesListed(row, m - 1);
    }
  }

  ghost predicate AllDistinct(s: seq<nat>) {
    forall j, k :: 0 <= j < k < |s| ==> s[j] != s[k]
  }

  function Degree(code: Code, r: nat): nat
    requires r < |code.table|
  {
    |EdgesOf(code.table[r], |code.table[r]|)|
  }

  function Edges(code: Code, r: nat): seq<nat>
    requires r < |code.table|
  {
    EdgesOf(code.table[r], |code.table[r]|)
  }

  /** Widths of the packed words: columns, shifts and degrees fit their fields. */
  ghost predicate FitsWords(code: Code) {
    && ValidCode(code) && code.n <= 0x1_0000 && code.z <= 0x1_0000
    && forall r :: 0 <= r < |code.table| ==> Degree(code, r) <= MAX_DEG
  }

  ghost predicate PackedRow(code: Code, bc: seq<int>, sh: seq<int>, r: nat)
    requires r < |code.table|
  {
    var edges := Edges(code, r);
    && r * MAX_DEG + |edges| <= |bc| && |bc| == |sh|
    && forall k :: 0 <= k < |edges| ==>
         && edges[k] < |code.table[r]|
         && bc[r * MAX_DEG + k] == edges[k]
         && sh[r * MAX_DEG + k] == code.table[r][edges[k]]
  }

  ghost predicate Packed(code: Code, bc: seq<int>, sh: seq<int>) {
    |bc| == |sh| == |code.table| * MAX_DEG && RowsPacked(code, bc, sh, |code.table|)
  }

  /** The host's packing loop: scan every table row and skip the empty blocks. */
  method PackTable(code: Code) returns (bc: array<int>, sh: array<int>)
    requires FitsWords(code)
    ensures fresh(bc) && fresh(sh) && bc != sh
    ensures Packed(code, bc[..], sh[..])
  {
    var mb := |code.table|;
    bc := new int[mb * MAX_DEG](_ => 0);
    sh := new int[mb * MAX_DEG](_ => 0);
    for br := 0 to mb
      invariant RowsPacked(code, bc[..], sh[..], br)
    {
      ghost var bc0, sh0 := bc[..], sh[..];
      assert Degree(code, br) <= MAX_DEG;
      PackRow(code.table[br], bc, sh, br * MAX_DEG);
      RowsPackedGrow(code, bc0, sh0, bc[..], sh[..], br);
    }
  }

  ghost predicate RowsPacked(code: Code, bc: seq<int>, sh: seq<int>, n: nat)
    requires n <= |code.table|
  {
    forall r :: 0 <= r < n ==> PackedRow(code, bc, sh, r)
  }

  lemma RowsPackedGrow(code: Code, bc0: seq<int>, sh0: seq<int>, bc: seq<int>, sh: seq<int>, br: nat)
    requires FitsWords(code) && br < |code.table| && RowsPacked(code, bc0, sh0, br)
    requires |bc0| == |sh0| == |bc| == |sh| && br * MAX_DEG <= |bc|
    requires forall j :: 0 <= j < br * MAX_DEG ==> bc[j] == bc0[j] && sh[j] == sh0[j]
    requires PackedRow(code, bc, sh, br)
    ensures RowsPacked(code, bc, sh, br + 1)
  {
    forall r | 0 <= r < br
      ensures PackedRow(code, bc, sh, r)
    {
      assert Degree(code, r) <= MAX_DEG;
      KeepsPackedRow(code, bc0, sh0, bc, sh, r, br);
    }
  }

  lemma KeepsPackedRow(code: Code, bc0: seq<int>, sh0: seq<int>, bc: seq<int>, sh: seq<int>, r: nat, br: nat)
    requires r < br && r < |code.table| && Degree(code, r) <= MAX_DEG
    requires |bc0| == |sh0| == |bc| == |sh| && br * MAX_DEG <= |bc|
    requires forall j :: 0 <= j < br * MAX_DEG ==> bc[j] == bc0[j] && sh[j] == sh0[j]
    requires PackedRow(code, bc0, sh0, r)
    ensures PackedRow(code, bc, sh, r)
  {
  }

  method PackRow(row: seq<int>, bc: array<int>, sh: array<int>, base: nat)
    requires bc != sh && bc.Length == sh.Length && base + |EdgesOf(row, |row|)| <= bc.Length
    modifies bc, sh
    ensures forall k :: 0 <= k < |EdgesOf(row, |row|)| ==>
      bc[base + k] == EdgesOf(row, |row|)[k] && sh[base + k] == row[EdgesOf(row, |row|)[k]]
    ensures forall j :: 0 <= j < base ==> bc[j] == old(bc[j]) && sh[j] == old(sh[j])
  {
    var k := 0;
    ghost var e: seq<nat> := [];
    for c := 0 to |row|
      invariant e == EdgesOf(row, c) && k == |e| && base + k <= bc.Length
      invariant forall i :: 0 <= i < k ==> bc[base + i] == e[i] && sh[base + i] == row[e[i]]
      invariant forall j :: 0 <= j < base ==> bc[j] == old(bc[j]) && sh[j] == old(sh[j])
    {
      if row[c] >= 0 {
        EdgesGrow(row, c + 1, |row|);
        bc[base + k] := c;
        sh[base + k] := row[c];
        k := k + 1;
        e := e + [c];
      }
    }
  }

  lemma EdgesGrow(row: seq<int>, m: nat, m': nat)
    requires m <= m' <= |row|
    ensures |EdgesOf(row, m)| <= |EdgesOf(row, m')|
  {
    if m < m' {
      EdgesGrow(row, m, m' - 1);
    }
  }

  // ---------- coordinates ----------

  function Zeros(n: nat): seq<nat> {
    seq(n, _ => 0)
  }

  /** The coordinate of every column after the first r rows, starting from the given ones. */
  function CoordsAfter(code: Code, start: seq<nat>, r: nat): (cur: seq<nat>)
    requires r <= |code.table| && |start| == code.n
    requires forall i :: 0 <= i < r ==> |code.table[i]| == code.n
    ensures |cur| == code.n
  {
    if r == 0 then start
    else
      var cur := CoordsAfter(code, start, r - 1);
      seq(code.n, c requires 0 <= c < code.n =>
        if code.table[r - 1][c] >= 0 then code.table[r - 1][c] else cur[c])
  }

  /** Where one full pass over the rows leaves every column. */
  ghost function LastCoords(code: Code): (cur: seq<nat>)
    requires ValidCode(code)
    ensures |cur| == code.n
  {
    CoordsAfter(code, Zeros(code.n), |code.table|)
  }

  lemma {:induction false} CoordsBelowZ(code: Code, start: seq<nat>, r: nat)
    requires ValidCode(code) && |start| == code.n && r <= |code.table|
    requires forall c :: 0 <= c < code.n ==> start[c] < code.z
    ensures forall c :: 0 <= c < code.n ==> CoordsAfter(code, start, r)[c] < code.z
  {
    if r > 0 {
      CoordsBelowZ(code, start, r - 1);
    }
  }

  /** A column holds the shift of the last row that touched it, or its start coordinate. */
  lemma {:induction false} CoordsAgree(code: Code, start: seq<nat>, other: seq<nat>, r: nat, c: nat)
    requires ValidCode(code) && |start| == |other| == code.n && r <= |code.table| && c < code.n
    ensures CoordsAfter(code, start, r)[c] == CoordsAfter(code, other, r)[c]
         || (CoordsAfter(code, start, r)[c] == start[c] && CoordsAfter(code, other, r)[c] == other[c])
  {
    if r > 0 {
      CoordsAgree(code, start, other, r - 1, c);
    }
  }

  /** The steady plan is steady: a pass that starts from the last coordinates ends in them. */
  lemma LastCoordsAreSteady(code: Code)
    requires ValidCode(code)
    ensures CoordsAfter(code, LastCoords(code), |code.table|) == LastCoords(code)
  {
    forall c | 0 <= c < code.n
      ensures CoordsAfter(code, LastCoords(code), |code.table|)[c] == LastCoords(code)[c]
    {
      CoordsAgree(code, LastCoords(code), Zeros(code.n), |code.table|, c);
    }
  }

  /** The rotation that takes a column from coordinate cur to coordinate sh. */
  function Delta(sh: nat, cur: nat, z: nat): (d: nat)
    requires sh < z && cur < z
    ensures d < z
  {
    if cur <= sh then sh - cur else sh + z - cur
  }

  // ---------- plan words ----------

  const HALF_WORD: nat := 0x1_0000
  const WORD: nat := 0x1_0000_0000

  /** [shift:16 | column:16] */
  function PlanWord(c: nat, d: nat): (w: nat)
    requires c < HALF_WORD && d < HALF_WORD
    ensures w < WORD && ColumnOf(w) == c && ShiftOf(w) == d
  {
    c + d * HALF_WORD
  }

  function ColumnOf(w: nat): nat { w % HALF_WORD }

  function ShiftOf(w: nat): nat { w / HALF_WORD }

  /** [steady:32 | first:32] */
  function PairWord(first: nat, steady: nat): (w: nat)
    requires first < WORD && steady < WORD
    ensures FirstOf(w) == first && SteadyOf(w) == steady
  {
    first + steady * WORD
  }

  function FirstOf(w: nat): nat { w % WORD }

  function SteadyOf(w: nat): nat { w / WORD }

  datatype ShiftClass = ZeroShift | AlignedShift | VectorShift

  function ShiftClassOf(d: nat): ShiftClass {
    if d == 0 then ZeroShift else if d % 16 == 0 then AlignedShift else VectorShift
  }

  function ClassOf(w: nat): ShiftClass {
    ShiftClassOf(ShiftOf(SteadyOf(w)))
  }

  /** The words of one class among the first m, in their order. */
  function Select(words: seq<nat>, cls: ShiftClass, m: nat): (s: seq<nat>)
    requires m <= |words|
    ensures |s| <= m
    ensures forall k :: 0 <= k < |s| ==> ClassOf(s[k]) == cls
  {
    if m == 0 then []
    else Select(words, cls, m - 1) + if ClassOf(words[m - 1]) == cls then [words[m - 1]] else []
  }

  /** A row's words partitioned by shift class. */
  function Partitioned(words: seq<nat>): seq<nat> {
    Select(words, ZeroShift, |words|) + Select(words, AlignedShift, |words|) + Select(words, VectorShift, |words|)
  }

  lemma {:induction false} SelectCounts(words: seq<nat>, m: nat)
    requires m <= |words|
    ensures |Select(words, ZeroShift, m)| + |Select(words, AlignedShift, m)| + |Select(words, VectorShift, m)| == m
  {
    if m > 0 {
      SelectCounts(words, m - 1);
    }
  }

  lemma {:induction false} SelectHolds(words: seq<nat>, cls: ShiftClass, m: nat, w: nat)
    requires m <= |words|
    ensures w in Select(words, cls, m) <==> w in words[..m] && ClassOf(w) == cls
  {
    if m > 0 {
      SelectHolds(words, cls, m - 1, w);
      assert words[..m] == words[..m - 1] + [words[m - 1]];
    }
  }

  lemma {:induction false} SelectDistinct(words: seq<nat>, cls: ShiftClass, m: nat)
    requires m <= |words| && AllDistinct(words)
    ensures AllDistinct(Select(words, cls, m))
  {
    if m > 0 {
      SelectDistinct(words, cls, m - 1);
      SelectHolds(words, cls, m - 1, words[m - 1]);
    }
  }

  /** The partition reorders the row and neither drops nor repeats a word. */
  lemma PartitionReorders(words: seq<nat>)
    requires AllDistinct(words)
    ensures |Partitioned(words)| == |words| && AllDistinct(Partitioned(words))
    ensures forall w :: w in Partitioned(words) <==> w in words
  {
    SelectCounts(words, |words|);
    SelectDistinct(words, ZeroShift, |words|);
    SelectDistinct(words, AlignedShift, |words|);
    SelectDistinct(words, VectorShift, |words|);
    forall w: nat
      ensures w in Partitioned(words) <==> w in words
    {
      assert words[..|words|] == words;
      SelectHolds(words, ZeroShift, |words|, w);
      SelectHolds(words, AlignedShift, |words|, w);
      SelectHolds(words, VectorShift, |words|, w);
    }
  }

  // ---------- building the plan ----------

  /** The pair word of edge column c in row r: its rotation in either plan. */
  ghost function EdgeWord(code: Code, r: nat, c: nat): nat
    requires FitsWords(code) && r < |code.table| && c < code.n && code.table[r][c] >= 0
  {
    CoordsBelowZ(code, Zeros(code.n), r);
    CoordsBelowZ(code, Zeros(code.n), |code.table|);
    CoordsBelowZ(code, LastCoords(code), r);
    var s := code.table[r][c];
    PairWord(PlanWord(c, Delta(s, CoordsAfter(code, Zeros(code.n), r)[c], code.z)),
             PlanWord(c, Delta(s, CoordsAfter(code, LastCoords(code), r)[c], code.z)))
  }

  /** The words of row r's first m edges in table order, before the partition. */
  ghost function WordsUpTo(code: Code, r: nat, m: nat): (w: seq<nat>)
    requires FitsWords(code) && r < |code.table| && m <= Degree(code, r)
    ensures |w| == m
  {
    if m == 0 then [] else WordsUpTo(code, r, m - 1) + [EdgeWord(code, r, Edges(code, r)[m - 1])]
  }

  ghost function RowWords(code: Code, r: nat): (w: seq<nat>)
    requires FitsWords(code) && r < |code.table|
    ensures |w| == Degree(code, r)
  {
    WordsUpTo(code, r, Degree(code, r))
  }

  /** The two plan tables hold the halves of the given pair words from index base on. */
  ghost predicate Stored(first: seq<nat>, steady: seq<nat>, base: nat, words: seq<nat>) {
    && base + |words| <= |first| == |steady|
    && forall k :: 0 <= k < |words| ==>
         first[base + k] == FirstOf(words[k]) && steady[base + k] == SteadyOf(words[k])
  }

  /** One byte each: where the zero shifts end and where the aligned shifts end. */
  ghost predicate SplitOf(split: nat, words: seq<nat>) {
    var zeroEnd := |Select(words, ZeroShift, |words|)|;
    split == zeroEnd + 0x100 * (zeroEnd + |Select(words, AlignedShift, |words|)|)
  }

  /** What the two plan tables and the class boundaries hold for row r. */
  ghost predicate PlanRow(code: Code, first: seq<nat>, steady: seq<nat>, split: seq<nat>, r: nat)
    requires FitsWords(code) && r < |code.table| == |split|
  {
    Stored(first, steady, r * MAX_DEG, Partitioned(RowWords(code, r))) && SplitOf(split[r], RowWords(code, r))
  }

  /** Copy one shift class of the row behind the entries already written. */
  method AppendClass(rowMeta: array<nat>, deg: nat, cls: ShiftClass,
                     first: array<nat>, steady: array<nat>, base: nat, start: nat) returns (out: nat)
    requires rowMeta != first && rowMeta != steady && first != steady
    requires deg <= rowMeta.Length && first.Length == steady.Length
    requires base + start + |Select(rowMeta[..deg], cls, deg)| <= first.Length
    modifies first, steady
    ensures out == start + |Select(rowMeta[..deg], cls, deg)|
    ensures Stored(first[..], steady[..], base + start, Select(rowMeta[..deg], cls, deg))
    ensures forall j :: 0 <= j < base + start ==> first[j] == old(first[j]) && steady[j] == old(steady[j])
  {
    out := start;
    ghost var words := rowMeta[..deg];
    ghost var sel: seq<nat> := [];
    for kk := 0 to deg
      invariant words == rowMeta[..deg]
      invariant sel == Select(words, cls, kk) && out == start + |sel|
      invariant |sel| <= |Select(words, cls, deg)|
      invariant forall k :: 0 <= k < |sel| ==>
        first[base + start + k] == FirstOf(sel[k]) && steady[base + start + k] == SteadyOf(sel[k])
      invariant forall j :: 0 <= j < base + start ==> first[j] == old(first[j]) && steady[j] == old(steady[j])
    {
      SelectGrows(words, cls, kk + 1, deg);
      if ClassOf(rowMeta[kk]) == cls {
        first[base + out] := FirstOf(rowMeta[kk]);
        steady[base + out] := SteadyOf(rowMeta[kk]);
        out := out + 1;
        sel := sel + [rowMeta[kk]];
      }
    }
  }

  lemma SelectGrows(words: seq<nat>, cls: ShiftClass, m: nat, m': nat)
    requires m <= m' <= |words|
    ensures |Select(words, cls, m)| <= |Select(words, cls, m')|
  {
    if m < m' {
      SelectGrows(words, cls, m, m' - 1);
    }
  }

  lemma StoredAppend(first: seq<nat>, steady: seq<nat>, base: nat, a: seq<nat>, b: seq<nat>)
    requires Stored(first, steady, base, a) && Stored(first, steady, base + |a|, b)
    ensures Stored(first, steady, base, a + b)
  {
    forall k | 0 <= k < |a + b|
      ensures first[base + k] == FirstOf((a + b)[k]) && steady[base + k] == SteadyOf((a + b)[k])
    {
      if k >= |a| {
        assert (a + b)[k] == b[k - |a|];
        assert first[base + |a| + (k - |a|)] == FirstOf(b[k - |a|]);
      }
    }
  }

  lemma StoredKept(first0: seq<nat>, steady0: seq<nat>, first: seq<nat>, steady: seq<nat>, base: nat, words: seq<nat>)
    requires Stored(first0, steady0, base, words)
    requires |first0| == |steady0| == |first| == |steady|
    requires forall j :: 0 <= j < base + |words| ==> first[j] == first0[j] && steady[j] == steady0[j]
    ensures Stored(first, steady, base, words)
  {
  }

  /** Re-partition one row: zero shifts first, then the 16-aligned ones, then the rest. */
  method PartitionRow(rowMeta: array<nat>, deg: nat, first: array<nat>, steady: array<nat>, base: nat)
    returns (split: nat)
    requires rowMeta != first && rowMeta != steady && first != steady
    requires deg <= rowMeta.Length && first.Length == steady.Length && base + deg <= first.Length
    modifies first, steady
    ensures Stored(first[..], steady[..], base, Partitioned(rowMeta[..deg]))
    ensures SplitOf(split, rowMeta[..deg])
    ensures forall j :: 0 <= j < base ==> first[j] == old(first[j]) && steady[j] == old(steady[j])
  {
    ghost var words := rowMeta[..deg];
    SelectCounts(words, deg);
    ghost var zeros, aligned := Select(words, ZeroShift, deg), Select(words, AlignedShift, deg);
    var zeroEnd := AppendClass(rowMeta, deg, ZeroShift, first, steady, base, 0);
    ghost var f0, s0 := first[..], steady[..];
    var alignedEnd := AppendClass(rowMeta, deg, AlignedShift, first, steady, base, zeroEnd);
    StoredKept(f0, s0, first[..], steady[..], base, zeros);
    StoredAppend(first[..], steady[..], base, zeros, aligned);
    ghost var f1, s1 := first[..], steady[..];
    var all := AppendClass(rowMeta, deg, VectorShift, first, steady, base, alignedEnd);
    StoredKept(f1, s1, first[..], steady[..], base, zeros + aligned);
    StoredAppend(first[..], steady[..], base, zeros + aligned, Select(words, VectorShift, deg));
    split := zeroEnd + 0x100 * alignedEnd;
  }

  /** cur holds the coordinates after row r for the columns in done, and before row r for the others. */
  ghost predicate Advancing(code: Code, start: seq<nat>, cur: seq<nat>, r: nat, done: set<nat>)
    requires ValidCode(code) && |start| == code.n && r < |code.table|
  {
    && |cur| == code.n
    && forall c :: 0 <= c < code.n ==>
         cur[c] == if c in done && code.table[r][c] >= 0 then code.table[r][c] else CoordsAfter(code, start, r)[c]
  }

  lemma Advanced(code: Code, start: seq<nat>, cur: seq<nat>, r: nat, done: set<nat>)
    requires ValidCode(code) && |start| == code.n && r < |code.table|
    requires Advancing(code, start, cur, r, done)
    requires forall c: nat :: c < code.n && code.table[r][c] >= 0 ==> c in done
    ensures cur == CoordsAfter(code, start, r + 1)
  {
    forall c | 0 <= c < code.n
      ensures cur[c] == CoordsAfter(code, start, r + 1)[c]
    {
    }
  }

  lemma DeltaIsRemainder(sh: nat, cur: nat, z: nat)
    requires sh < z && cur < z
    ensures (sh + z - cur) % z == Delta(sh, cur, z)
  {
    AddMod(sh, z - cur, z);
  }

  ghost predicate BothAdvancing(code: Code, first: seq<nat>, steady: seq<nat>, r: nat, done: set<nat>)
    requires ValidCode(code) && r < |code.table|
  {
    Advancing(code, Zeros(code.n), first, r, done) && Advancing(code, LastCoords(code), steady, r, done)
  }

  ghost predicate BothAt(code: Code, first: seq<nat>, steady: seq<nat>, r: nat)
    requires ValidCode(code) && r <= |code.table|
  {
    first == CoordsAfter(code, Zeros(code.n), r) && steady == CoordsAfter(code, LastCoords(code), r)
  }

  /** One edge of the plan construction: emit the pair word and move the column's two coordinates. */
  method PlanEdge(ghost code: Code, ghost r: nat, c: nat, s: nat, z: nat,
                  curFirst: array<nat>, curSteady: array<nat>, ghost done: set<nat>) returns (word: nat)
    requires FitsWords(code) && r < |code.table| && z == code.z
    requires c < code.n && code.table[r][c] == s && c !in done
    requires curFirst != curSteady && BothAdvancing(code, curFirst[..], curSteady[..], r, done)
    modifies curFirst, curSteady
    ensures word == EdgeWord(code, r, c)
    ensures BothAdvancing(code, curFirst[..], curSteady[..], r, done + {c})
  {
    CoordsBelowZ(code, Zeros(code.n), r);
    CoordsBelowZ(code, Zeros(code.n), |code.table|);
    CoordsBelowZ(code, LastCoords(code), r);
    assert curFirst.Length == |curFirst[..]| && curSteady.Length == |curSteady[..]|;
    assert curFirst[..][c] == curFirst[c] && curSteady[..][c] == curSteady[c];
    DeltaIsRemainder(s, curFirst[c], z);
    DeltaIsRemainder(s, curSteady[c], z);
    var firstDelta := (s + z - curFirst[c]) % z;
    var steadyDelta := (s + z - curSteady[c]) % z;
    curFirst[c] := s;
    curSteady[c] := s;
    word := PairWord(PlanWord(c, firstDelta), PlanWord(c, steadyDelta));
  }

  method PlanEdgeAt(ghost code: Code, bc: array<int>, sh: array<int>, base: nat, ghost r: nat, kk: nat, z: nat,
                    curFirst: array<nat>, curSteady: array<nat>) returns (word: nat)
    requires FitsWords(code) && r < |code.table| && z == code.z && kk < Degree(code, r)
    requires PackedRow(code, bc[..], sh[..], r) && base == r * MAX_DEG
    requires curFirst != curSteady && BothAdvancing(code, curFirst[..], curSteady[..], r, Planned(code, r, kk))
    modifies curFirst, curSteady
    ensures word == EdgeWord(code, r, Edges(code, r)[kk])
    ensures BothAdvancing(code, curFirst[..], curSteady[..], r, Planned(code, r, kk + 1))
  {
    PlannedGrows(code, r, kk);
    assert bc[..][base + kk] == Edges(code, r)[kk] && sh[..][base + kk] == code.table[r][Edges(code, r)[kk]];
    word := PlanEdge(code, r, bc[base + kk], sh[base + kk], z, curFirst, curSteady, Planned(code, r, kk));
  }

  ghost predicate PrefixIs(s: seq<nat>, words: seq<nat>) {
    |words| <= |s| && forall i :: 0 <= i < |words| ==> s[i] == words[i]
  }

  /** Plan one edge and store its word. */
  method PlanStoredEdge(ghost code: Code, bc: array<int>, sh: array<int>, base: nat, ghost r: nat, kk: nat, z: nat,
                        curFirst: array<nat>, curSteady: array<nat>, rowMeta: array<nat>)
    requires FitsWords(code) && r < |code.table| && z == code.z && kk < Degree(code, r) <= rowMeta.Length
    requires PackedRow(code, bc[..], sh[..], r) && base == r * MAX_DEG
    requires curFirst != curSteady && rowMeta != curFirst && rowMeta != curSteady
    requires BothAdvancing(code, curFirst[..], curSteady[..], r, Planned(code, r, kk))
    requires PrefixIs(rowMeta[..], WordsUpTo(code, r, kk))
    modifies curFirst, curSteady, rowMeta
    ensures BothAdvancing(code, curFirst[..], curSteady[..], r, Planned(code, r, kk + 1))
    ensures PrefixIs(rowMeta[..], WordsUpTo(code, r, kk + 1))
  {
    var word := PlanEdgeAt(code, bc, sh, base, r, kk, z, curFirst, curSteady);
    ghost var first, steady := curFirst[..], curSteady[..];
    rowMeta[kk] := word;
    assert curFirst[..] == first && curSteady[..] == steady;
  }

  /** All edges of one row, in packed order. */
  method PlanRowWords(ghost code: Code, bc: array<int>, sh: array<int>, base: nat, ghost r: nat,
                      deg: nat, z: nat, curFirst: array<nat>, curSteady: array<nat>, rowMeta: array<nat>)
    requires FitsWords(code) && r < |code.table| && z == code.z && deg == Degree(code, r) <= rowMeta.Length
    requires PackedRow(code, bc[..], sh[..], r) && base == r * MAX_DEG
    requires curFirst != curSteady && rowMeta != curFirst && rowMeta != curSteady
    requires BothAt(code, curFirst[..], curSteady[..], r)
    modifies curFirst, curSteady, rowMeta
    ensures rowMeta[..deg] == RowWords(code, r)
    ensures BothAt(code, curFirst[..], curSteady[..], r + 1)
  {
    NoneAdvanced(code, curFirst[..], curSteady[..], r);
    for kk := 0 to deg
      invariant BothAdvancing(code, curFirst[..], curSteady[..], r, Planned(code, r, kk))
      invariant PrefixIs(rowMeta[..], WordsUpTo(code, r, kk))
    {
      PlanStoredEdge(code, bc, sh, base, r, kk, z, curFirst, curSteady, rowMeta);
    }
    AllAdvanced(code, curFirst[..], curSteady[..], r);
  }

  lemma NoneAdvanced(code: Code, first: seq<nat>, steady: seq<nat>, r: nat)
    requires ValidCode(code) && r < |code.table| && BothAt(code, first, steady, r)
    ensures BothAdvancing(code, first, steady, r, Planned(code, r, 0))
  {
  }

  lemma AllAdvanced(code: Code, first: seq<nat>, steady: seq<nat>, r: nat)
    requires ValidCode(code) && r < |code.table|
    requires BothAdvancing(code, first, steady, r, Planned(code, r, Degree(code, r)))
    ensures BothAt(code, first, steady, r + 1)
  {
    PlannedAll(code, r);
    Advanced(code, Zeros(code.n), first, r, Planned(code, r, Degree(code, r)));
    Advanced(code, LastCoords(code), steady, r, Planned(code, r, Degree(code, r)));
  }

  ghost function Planned(code: Code, r: nat, kk: nat): set<nat>
    requires r < |code.table| && kk <= Degree(code, r)
  {
    set c | c in Edges(code, r)[..kk]
  }

  lemma PlannedGrows(code: Code, r: nat, kk: nat)
    requires r < |code.table| && kk < Degree(code, r)
    ensures Edges(code, r)[kk] !in Planned(code, r, kk)
    ensures Planned(code, r, kk + 1) == Planned(code, r, kk) + {Edges(code, r)[kk]}
  {
    EdgesListed(code.table[r], |code.table[r]|);
    var e := Edges(code, r);
    assert e[..kk + 1] == e[..kk] + [e[kk]];
  }

  lemma PlannedAll(code: Code, r: nat)
    requires ValidCode(code) && r < |code.table|
    ensures forall c: nat :: c < code.n && code.table[r][c] >= 0 ==> c in Planned(code, r, Degree(code, r))
  {
    EdgesListed(code.table[r], code.n);
    assert Edges(code, r)[..Degree(code, r)] == Edges(code, r);
  }

  /** First pass over the graph: the last shift of every column. */
  method LastShifts(code: Code, bc: array<int>, sh: array<int>) returns (last: array<nat>)
    requires FitsWords(code) && Packed(code, bc[..], sh[..])
    ensures fresh(last) && last[..] == LastCoords(code)
  {
    last := new nat[code.n](_ => 0);
    assert last[..] == Zeros(code.n);
    for br := 0 to |code.table|
      invariant last[..] == CoordsAfter(code, Zeros(code.n), br)
    {
      LastShiftsOfRow(code, bc, sh, br, last);
    }
  }

  method LastShiftsOfRow(code: Code, bc: array<int>, sh: array<int>, r: nat, last: array<nat>)
    requires FitsWords(code) && r < |code.table| && PackedRow(code, bc[..], sh[..], r)
    requires last[..] == CoordsAfter(code, Zeros(code.n), r)
    modifies last
    ensures last[..] == CoordsAfter(code, Zeros(code.n), r + 1)
  {
    for kk := 0 to Degree(code, r)
      invariant Advancing(code, Zeros(code.n), last[..], r, Planned(code, r, kk))
    {
      PlannedGrows(code, r, kk);
      assert |last[..]| == last.Length;
      assert bc[..][r * MAX_DEG + kk] == Edges(code, r)[kk];
      assert sh[..][r * MAX_DEG + kk] == code.table[r][Edges(code, r)[kk]];
      last[bc[r * MAX_DEG + kk]] := sh[r * MAX_DEG + kk];
    }
    PlannedAll(code, r);
    Advanced(code, Zeros(code.n), last[..], r, Planned(code, r, Degree(code, r)));
  }

  /** The kernel's read-only graph tables. */
  datatype Plan = Plan(last: seq<nat>, first: seq<nat>, steady: seq<nat>, split: seq<nat>)

  ghost predicate PlanRows(code: Code, first: seq<nat>, steady: seq<nat>, split: seq<nat>, n: nat)
    requires FitsWords(code) && n <= |code.table| == |split|
  {
    forall r :: 0 <= r < n ==> PlanRow(code, first, steady, split, r)
  }

  ghost predicate PlanFor(code: Code, plan: Plan) {
    && FitsWords(code) && |plan.split| == |code.table|
    && plan.last == LastCoords(code)
    && PlanRows(code, plan.first, plan.steady, plan.split, |code.table|)
  }

  lemma PlanRowsKept(code: Code, first0: seq<nat>, steady0: seq<nat>, split0: seq<nat>,
                     first: seq<nat>, steady: seq<nat>, split: seq<nat>, n: nat)
    requires FitsWords(code) && n < |code.table| == |split0| == |split|
    requires |first0| == |steady0| == |first| == |steady| && n * MAX_DEG <= |first|
    requires forall j :: 0 <= j < n * MAX_DEG ==> first[j] == first0[j] && steady[j] == steady0[j]
    requires split[..n] == split0[..n]
    requires PlanRows(code, first0, steady0, split0, n)
    requires PlanRow(code, first, steady, split, n)
    ensures PlanRows(code, first, steady, split, n + 1)
  {
    forall r | 0 <= r < n
      ensures PlanRow(code, first, steady, split, r)
    {
      assert PlanRow(code, first0, steady0, split0, r);
      assert split[r] == split[..n][r] == split0[..n][r] == split0[r];
      PartitionedLength(RowWords(code, r));
      assert Degree(code, r) <= MAX_DEG;
      StoredKept(first0, steady0, first, steady, r * MAX_DEG, Partitioned(RowWords(code, r)));
    }
  }

  lemma PartitionedLength(words: seq<nat>)
    ensures |Partitioned(words)| == |words|
  {
    SelectCounts(words, |words|);
  }

  /** Build both plans in one sweep over the packed rows. */
  method BuildPlan(code: Code, bc: array<int>, sh: array<int>) returns (plan: Plan)
    requires FitsWords(code) && Packed(code, bc[..], sh[..])
    ensures PlanFor(code, plan)
  {
    var last := LastShifts(code, bc, sh);
    var mb := |code.table|;
    var curFirst := new nat[code.n](_ => 0);
    var curSteady := new nat[code.n](i requires 0 <= i < last.Length reads last => last[i]);
    assert curFirst[..] == Zeros(code.n);
    assert curSteady[..] == LastCoords(code);
    var first := new nat[mb * MAX_DEG](_ => 0);
    var steady := new nat[mb * MAX_DEG](_ => 0);
    var split := new nat[mb](_ => 0);
    for br := 0 to mb
      invariant BothAt(code, curFirst[..], curSteady[..], br)
      invariant PlanRows(code, first[..], steady[..], split[..], br)
      invariant last[..] == LastCoords(code)
    {
      PlanOneRow(code, bc, sh, br, curFirst, curSteady, first, steady, split);
    }
    plan := Plan(last[..], first[..], steady[..], split[..]);
  }

  method PlanOneRow(code: Code, bc: array<int>, sh: array<int>, br: nat, curFirst: array<nat>, curSteady: array<nat>,
                    first: array<nat>, steady: array<nat>, split: array<nat>)
    requires FitsWords(code) && br < |code.table| == split.Length && PackedRow(code, bc[..], sh[..], br)
    requires first.Length == steady.Length == |code.table| * MAX_DEG
    requires curFirst != curSteady && curFirst != first && curFirst != steady && curFirst != split
    requires curSteady != first && curSteady != steady && curSteady != split
    requires first != steady && first != split && steady != split
    requires BothAt(code, curFirst[..], curSteady[..], br)
    requires PlanRows(code, first[..], steady[..], split[..], br)
    modifies curFirst, curSteady, first, steady, split
    ensures BothAt(code, curFirst[..], curSteady[..], br + 1)
    ensures PlanRows(code, first[..], steady[..], split[..], br + 1)
  {
    var deg := Degree(code, br);
    assert deg <= MAX_DEG;
    ghost var f0, s0, p0 := first[..], steady[..], split[..];
    var rowMeta := new nat[MAX_DEG](_ => 0);
    PlanRowWords(code, bc, sh, br * MAX_DEG, br, deg, code.z, curFirst, curSteady, rowMeta);
    var boundary := PartitionRow(rowMeta, deg, first, steady, br * MAX_DEG);
    split[br] := boundary;
    PlanRowsKept(code, f0, s0, p0, first[..], steady[..], split[..], br);
  }

  // ---------- what the plan means ----------

  function ColumnOfPair(w: nat): nat {
    ColumnOf(SteadyOf(w))
  }

  /** w is the pair word of an incident column of row r. */
  ghost predicate IsEdgeWord(code: Code, r: nat, w: nat)
    requires FitsWords(code) && r < |code.table|
  {
    var c := ColumnOfPair(w);
    c < code.n && code.table[r][c] >= 0 && w == EdgeWord(code, r, c)
  }

  lemma EdgeWordNamesColumn(code: Code, r: nat, c: nat)
    requires FitsWords(code) && r < |code.table| && c < code.n && code.table[r][c] >= 0
    ensures ColumnOfPair(EdgeWord(code, r, c)) == c
  {
    CoordsBelowZ(code, Zeros(code.n), r);
    CoordsBelowZ(code, Zeros(code.n), |code.table|);
    CoordsBelowZ(code, LastCoords(code), r);
  }

  lemma {:induction false} WordsUpToMeaning(code: Code, r: nat, m: nat)
    requires FitsWords(code) && r < |code.table| && m <= Degree(code, r)
    ensures forall k :: 0 <= k < m ==>
      IsEdgeWord(code, r, WordsUpTo(code, r, m)[k]) && ColumnOfPair(WordsUpTo(code, r, m)[k]) == Edges(code, r)[k]
  {
    if m > 0 {
      WordsUpToMeaning(code, r, m - 1);
      EdgeWordNamesColumn(code, r, Edges(code, r)[m - 1]);
    }
  }

  /** The columns named by the first m words. */
  function ColumnsNamed(words: seq<nat>, m: nat): (cols: seq<nat>)
    requires m <= |words|
    ensures |cols| == m
  {
    if m == 0 then [] else ColumnsNamed(words, m - 1) + [ColumnOfPair(words[m - 1])]
  }

  lemma {:induction false} ColumnsNamedAt(words: seq<nat>, m: nat, k: nat)
    requires k < m <= |words|
    ensures ColumnsNamed(words, m)[k] == ColumnOfPair(words[k])
  {
    if k < m - 1 {
      ColumnsNamedAt(words, m - 1, k);
    }
  }

  /** The order in which the plan visits the columns of row r. */
  ghost function PlanOrder(code: Code, r: nat): (cols: seq<nat>)
    requires FitsWords(code) && r < |code.table|
    ensures |cols| == Degree(code, r)
  {
    var words := Partitioned(RowWords(code, r));
    PartitionedLength(RowWords(code, r));
    ColumnsNamed(words, |words|)
  }

  lemma RowWordsDistinct(code: Code, r: nat)
    requires FitsWords(code) && r < |code.table|
    ensures AllDistinct(RowWords(code, r))
    ensures forall w :: w in RowWords(code, r) ==> IsEdgeWord(code, r, w)
    ensures forall c: nat :: c < code.n && code.table[r][c] >= 0 ==> EdgeWord(code, r, c) in RowWords(code, r)
  {
    WordsUpToMeaning(code, r, Degree(code, r));
    EdgesListed(code.table[r], code.n);
    forall c: nat | c < code.n && code.table[r][c] >= 0
      ensures EdgeWord(code, r, c) in RowWords(code, r)
    {
      var k :| 0 <= k < Degree(code, r) && Edges(code, r)[k] == c;
      assert IsEdgeWord(code, r, RowWords(code, r)[k]);
    }
  }

  /** The plan visits every incident column exactly once. */
  lemma PlanOrderListsEdges(code: Code, r: nat)
    requires FitsWords(code) && r < |code.table|
    ensures AllDistinct(PlanOrder(code, r))
    ensures forall k :: 0 <= k < Degree(code, r) ==>
      PlanOrder(code, r)[k] < code.n && code.table[r][PlanOrder(code, r)[k]] >= 0
    ensures forall c: nat :: c < code.n && code.table[r][c] >= 0 ==> c in PlanOrder(code, r)
  {
    var words := Partitioned(RowWords(code, r));
    RowWordsDistinct(code, r);
    PartitionReorders(RowWords(code, r));
    forall k: nat | k < |words|
      ensures IsEdgeWord(code, r, words[k]) && PlanOrder(code, r)[k] == ColumnOfPair(words[k])
    {
      ColumnsNamedAt(words, |words|, k);
      assert words[k] in words;
    }
    forall c: nat | c < code.n && code.table[r][c] >= 0
      ensures c in PlanOrder(code, r)
    {
      EdgeWordNamesColumn(code, r, c);
      assert EdgeWord(code, r, c) in words;
      var k :| 0 <= k < |words| && words[k] == EdgeWord(code, r, c);
      assert PlanOrder(code, r)[k] == c;
    }
  }

  /** The plan entries of edge k of row r: its column, its rotation in either plan, its class bounds. */
  lemma PlanEntry(code: Code, plan: Plan, r: nat, k: nat)
    requires PlanFor(code, plan) && r < |code.table| && k < Degree(code, r)
    ensures r * MAX_DEG + k < |plan.first| == |plan.steady| && PlanOrder(code, r)[k] < code.n
    ensures var c := PlanOrder(code, r)[k];
            && code.table[r][c] >= 0
            && CoordsAfter(code, Zeros(code.n), r)[c] < code.z && CoordsAfter(code, plan.last, r)[c] < code.z
            && ColumnOf(plan.first[r * MAX_DEG + k]) == c && ColumnOf(plan.steady[r * MAX_DEG + k]) == c
            && ShiftOf(plan.first[r * MAX_DEG + k])
               == Delta(code.table[r][c], CoordsAfter(code, Zeros(code.n), r)[c], code.z)
            && ShiftOf(plan.steady[r * MAX_DEG + k])
               == Delta(code.table[r][c], CoordsAfter(code, plan.last, r)[c], code.z)
  {
    var words := Partitioned(RowWords(code, r));
    assert PlanRow(code, plan.first, plan.steady, plan.split, r);
    RowWordsDistinct(code, r);
    PartitionReorders(RowWords(code, r));
    ColumnsNamedAt(words, |words|, k);
    assert words[k] in words;
    assert IsEdgeWord(code, r, words[k]);
    CoordsBelowZ(code, Zeros(code.n), r);
    CoordsBelowZ(code, Zeros(code.n), |code.table|);
    CoordsBelowZ(code, LastCoords(code), r);
  }

  /** The class boundaries of row r tell which cyclic-shift routine each edge needs. */
  lemma PlanClasses(code: Code, plan: Plan, r: nat, k: nat)
    requires PlanFor(code, plan) && r < |code.table| && k < Degree(code, r)
    ensures r * MAX_DEG + k < |plan.steady|
    ensures var zeroEnd, alignedEnd := plan.split[r] % 0x100, plan.split[r] / 0x100;
            var shift := plan.steady[r * MAX_DEG + k] / 0x1_0000;
            && zeroEnd <= alignedEnd <= Degree(code, r)
            && (k < zeroEnd <==> shift == 0) && (k >= alignedEnd <==> shift % 16 != 0)
  {
    var words := RowWords(code, r);
    var zeros, aligned := Select(words, ZeroShift, |words|), Select(words, AlignedShift, |words|);
    assert PlanRow(code, plan.first, plan.steady, plan.split, r);
    SelectCounts(words, |words|);
    assert Degree(code, r) <= MAX_DEG;
    DivModUnique(plan.split[r], 0x100, |zeros| + |aligned|, |zeros|);
    var w := Partitioned(words)[k];
    assert ClassOf(w) == if k < |zeros| then ZeroShift
                         else if k < |zeros| + |aligned| then AlignedShift
                         else VectorShift;
  }

  // ---------- the plan as the kernel uses it ----------

  function TableOf(plan: Plan, cold: bool): seq<nat> {
    if cold then plan.first else plan.steady
  }

  /** Start coordinates of a pass: zero everywhere on the cold pass, the last ones afterwards. */
  ghost function StartOf(code: Code, cold: bool): (start: seq<nat>)
    requires ValidCode(code)
    ensures |start| == code.n
  {
    if cold then Zeros(code.n) else LastCoords(code)
  }

  /** Entry k of row r names column cols[k] in either table, with a rotation below z. */
  ghost predicate EntryNamed(code: Code, plan: Plan, cols: seq<nat>, cold: bool, r: nat, k: nat)
    requires k < |cols|
  {
    var word := r * MAX_DEG + k;
    && word < |TableOf(plan, cold)|
    && ColumnOf(TableOf(plan, cold)[word]) == cols[k] < code.n
    && ShiftOf(TableOf(plan, cold)[word]) < code.z
  }

  /** Its rotation takes the column from where the pass has left it to this row's coordinate. */
  ghost predicate EntryRotates(code: Code, plan: Plan, cols: seq<nat>, cold: bool, r: nat, k: nat)
    requires ValidCode(code) && r < |code.table| && k < |cols|
  {
    var word := r * MAX_DEG + k;
    var c := cols[k];
    && word < |TableOf(plan, cold)| && c < code.n
    && 0 <= code.table[r][c] < code.z
    && CoordsAfter(code, StartOf(code, cold), r)[c] < code.z
    && ShiftOf(TableOf(plan, cold)[word])
       == Delta(code.table[r][c], CoordsAfter(code, StartOf(code, cold), r)[c], code.z)
  }

  function ClassAt(split: nat, k: nat): ShiftClass {
    if k < split % 0x100 then ZeroShift else if k < split / 0x100 then AlignedShift else VectorShift
  }

  ghost predicate EntryClassed(plan: Plan, r: nat, k: nat) {
    && r < |plan.split| && r * MAX_DEG + k < |plan.steady|
    && ShiftClassOf(ShiftOf(plan.steady[r * MAX_DEG + k])) == ClassAt(plan.split[r], k)
  }

  ghost predicate RowShaped(code: Code, plan: Plan, cols: seq<nat>, r: nat)
    requires ValidCode(code) && r < |code.table| == |plan.split|
  {
    && 2 <= |cols| <= MAX_DEG && AllDistinct(cols)
    && r * MAX_DEG + |cols| <= |plan.first| == |plan.steady|
    && plan.split[r] % 0x100 <= plan.split[r] / 0x100 <= |cols|
  }

  ghost predicate RowNamed(code: Code, plan: Plan, cols: seq<nat>, r: nat) {
    forall k: nat, cold: bool :: k < |cols| ==> EntryNamed(code, plan, cols, cold, r, k)
  }

  ghost predicate RowRotates(code: Code, plan: Plan, cols: seq<nat>, r: nat)
    requires ValidCode(code) && r < |code.table|
  {
    forall k: nat, cold: bool :: k < |cols| ==> EntryRotates(code, plan, cols, cold, r, k)
  }

  ghost predicate RowClassed(plan: Plan, cols: seq<nat>, r: nat) {
    forall k: nat :: k < |cols| ==> EntryClassed(plan, r, k)
  }

  ghost predicate RowCovered(code: Code, cols: seq<nat>, r: nat)
    requires ValidCode(code) && r < |code.table|
  {
    forall c: nat :: c < code.n && code.table[r][c] >= 0 ==> c in cols
  }

  /** cols lists the incident columns of row r once each, and the tables follow it. */
  ghost predicate RowPlanned(code: Code, plan: Plan, cols: seq<nat>, r: nat)
    requires ValidCode(code) && r < |code.table| == |plan.split|
  {
    && RowShaped(code, plan, cols, r) && RowNamed(code, plan, cols, r) && RowClassed(plan, cols, r)
    && RowRotates(code, plan, cols, r) && RowCovered(code, cols, r)
  }

  ghost predicate OrderedRow(code: Code, plan: Plan, order: seq<seq<nat>>, r: nat)
    requires ValidCode(code) && r < |order| == |code.table| == |plan.split|
  {
    RowPlanned(code, plan, order[r], r)
  }

  /** order[r] is the order in which the tables visit the columns of row r. */
  ghost predicate PlanOk(code: Code, plan: Plan, order: seq<seq<nat>>) {
    && ValidCode(code) && |order| == |code.table| == |plan.split|
    && plan.last == LastCoords(code)
    && forall r: nat :: r < |order| ==> OrderedRow(code, plan, order, r)
  }

  lemma RowHasEdges(code: Code, r: nat)
    requires ValidCode(code) && r < |code.table|
    ensures Degree(code, r) >= 2
  {
    EdgesListed(code.table[r], code.n);
    var row := code.table[r];
    var c, d :| 0 <= c < d < |row| && row[c] >= 0 && row[d] >= 0;
    assert c in Edges(code, r) && d in Edges(code, r);
    var j :| 0 <= j < Degree(code, r) && Edges(code, r)[j] == c;
    var k :| 0 <= k < Degree(code, r) && Edges(code, r)[k] == d;
  }

  lemma PlanRowNamed(code: Code, plan: Plan, cols: seq<nat>, r: nat)
    requires PlanFor(code, plan) && r < |code.table| && cols == PlanOrder(code, r)
    ensures RowNamed(code, plan, cols, r)
  {
    forall k: nat, cold: bool | k < |cols|
      ensures EntryNamed(code, plan, cols, cold, r, k)
    {
      PlanEntry(code, plan, r, k);
    }
  }

  lemma PlanRowRotates(code: Code, plan: Plan, cols: seq<nat>, r: nat)
    requires PlanFor(code, plan) && r < |code.table| && cols == PlanOrder(code, r)
    ensures RowRotates(code, plan, cols, r)
  {
    forall k: nat, cold: bool | k < |cols|
      ensures EntryRotates(code, plan, cols, cold, r, k)
    {
      PlanEntry(code, plan, r, k);
    }
  }

  lemma PlanRowClassed(code: Code, plan: Plan, cols: seq<nat>, r: nat)
    requires PlanFor(code, plan) && r < |code.table| && cols == PlanOrder(code, r)
    ensures RowClassed(plan, cols, r)
  {
    forall k: nat | k < |cols|
      ensures EntryClassed(plan, r, k)
    {
      PlanClasses(code, plan, r, k);
    }
  }

  lemma PlanRowShaped(code: Code, plan: Plan, cols: seq<nat>, r: nat)
    requires PlanFor(code, plan) && r < |code.table| && cols == PlanOrder(code, r)
    ensures RowShaped(code, plan, cols, r) && RowCovered(code, cols, r)
  {
    RowHasEdges(code, r);
    assert Degree(code, r) <= MAX_DEG;
    PlanOrderListsEdges(code, r);
    PlanEntry(code, plan, r, Degree(code, r) - 1);
    PlanClasses(code, plan, r, 0);
  }

  lemma PlanRowOrder(code: Code, plan: Plan, r: nat) returns (cols: seq<nat>)
    requires PlanFor(code, plan) && r < |code.table|
    ensures RowPlanned(code, plan, cols, r) && |cols| == Degree(code, r)
  {
    cols := PlanOrder(code, r);
    PlanRowShaped(code, plan, cols, r);
    PlanRowNamed(code, plan, cols, r);
    PlanRowRotates(code, plan, cols, r);
    PlanRowClassed(code, plan, cols, r);
  }

  /** The tables the kernel builds follow an order of every row's columns. */
  lemma BuiltPlanOk(code: Code, plan: Plan) returns (order: seq<seq<nat>>)
    requires PlanFor(code, plan)
    ensures PlanOk(code, plan, order)
    ensures forall r: nat :: r < |order| ==> |order[r]| == Degree(code, r)
  {
    order := [];
    while |order| < |code.table|
      invariant |order| <= |code.table|
      invariant forall r: nat :: r < |order| ==> RowPlanned(code, plan, order[r], r)
      invariant forall r: nat :: r < |order| ==> |order[r]| == Degree(code, r)
    {
      var cols := PlanRowOrder(code, plan, |order|);
      order := order + [cols];
    }
    forall r: nat | r < |order|
      ensures OrderedRow(code, plan, order, r)
    {
    }
  }
}
