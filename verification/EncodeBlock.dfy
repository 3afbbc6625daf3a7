/** The encoder's passes over one code block, and its share of the code blocks. */
module EncodeBlock {
  import opened Arith
  import opened LayeredDecoder
  import opened ShiftKernel
  import opened QcMatrix
  import opened EncodeKernel

  /** A compacted table row holds row r of the matrix. */
  ghost predicate RowHeld(table: seq<int>, width: nat, m: Matrix, r: nat)
    requires r < |m|
  {
    Compacted(table, RowStart(r, width), width, m[r])
  }

  ghost predicate TableHolds(table: seq<int>, width: nat, m: Matrix) {
    forall r: nat :: r < |m| ==> RowHeld(table, width, m, r)
  }

  ghost predicate BlockIs(s: seq<int>, at: nat, block: seq<int>) {
    |block| == Z && at + Z <= |s| && forall j: nat :: j < Z ==> Lane(s, at, j) == block[j]
  }

  /** The first copy of a block is in place. */
  ghost predicate BlockHalf(src: seq<int>, block: seq<int>, c: nat) {
    c * Z_PAD + Z_PAD <= |src| && BlockIs(src, c * Z_PAD, block)
  }

  ghost predicate HalvesUpTo(src: seq<int>, x: Word, n: nat)
    requires n <= |x|
  {
    forall c: nat :: c < n ==> BlockHalf(src, x[c], c)
  }

  ghost predicate DoubledUpTo(src: seq<int>, x: Word, n: nat)
    requires n <= |x|
  {
    forall c: nat :: c < n ==> BlockDoubled(src, x[c], c)
  }

  lemma HalvesGrow(was: seq<int>, now: seq<int>, x: Word, n: nat)
    requires n < |x| && HalvesUpTo(was, x, n) && BlockHalf(now, x[n], n)
    requires KeptOutside(now, was, n * Z_PAD, n * Z_PAD + Z)
    ensures HalvesUpTo(now, x, n + 1)
  {
    forall c: nat | c < n + 1
      ensures BlockHalf(now, x[c], c)
    {
      if c < n {
        assert BlockHalf(was, x[c], c);
        forall j: nat | j < Z
          ensures Lane(now, c * Z_PAD, j) == x[c][j]
        {
          assert Lane(was, c * Z_PAD, j) == x[c][j];
        }
      }
    }
  }

  /** Copy the first half of a padded block to its second half. */
  method DoubleBlock(buf: array<int>, at: nat)
    requires at + Z_PAD <= buf.Length
    modifies buf
    ensures forall j: nat :: j < Z ==> Lane(buf[..], at + Z, j) == Lane(buf[..], at, j)
    ensures KeptOutside(buf[..], old(buf[..]), at + Z, at + Z_PAD)
  {
    forall e | 0 <= e < Z {
      buf[at + Z + e] := buf[at + e];
    }
  }

  lemma BlockGetsDoubled(was: seq<int>, now: seq<int>, block: seq<int>, c: nat)
    requires BlockHalf(was, block, c) && |now| == |was|
    requires KeptOutside(now, was, c * Z_PAD + Z, c * Z_PAD + Z_PAD)
    requires forall j: nat :: j < Z ==> Lane(now, c * Z_PAD + Z, j) == Lane(now, c * Z_PAD, j)
    ensures BlockDoubled(now, block, c)
  {
    forall j: nat | j < Z
      ensures now[c * Z_PAD + j] == block[j] && now[c * Z_PAD + Z + j] == block[j]
    {
      assert Lane(was, c * Z_PAD, j) == block[j];
      assert Lane(now, c * Z_PAD + Z, j) == Lane(now, c * Z_PAD, j);
    }
  }

  /** Doubling block n leaves the others as they were. */
  lemma DoublingStep(was: seq<int>, now: seq<int>, x: Word, n: nat)
    requires n < |x| && HalvesUpTo(was, x, |x|) && DoubledUpTo(was, x, n)
    requires KeptOutside(now, was, n * Z_PAD + Z, n * Z_PAD + Z_PAD)
    requires BlockDoubled(now, x[n], n)
    ensures HalvesUpTo(now, x, |x|) && DoubledUpTo(now, x, n + 1)
  {
    forall c: nat | c < |x|
      ensures BlockHalf(now, x[c], c)
    {
      assert BlockHalf(was, x[c], c);
      forall j: nat | j < Z
        ensures Lane(now, c * Z_PAD, j) == x[c][j]
      {
        assert Lane(was, c * Z_PAD, j) == x[c][j];
      }
    }
    forall c: nat | c < n
      ensures BlockDoubled(now, x[c], c)
    {
      assert BlockDoubled(was, x[c], c);
    }
  }

  method DoubleAll(buf: array<int>, n: nat, ghost x: Word)
    requires |x| == n && Blocks(x, n) && HalvesUpTo(buf[..], x, n)
    modifies buf
    ensures Doubled(buf[..], x)
  {
    for c := 0 to n
      invariant HalvesUpTo(buf[..], x, n) && DoubledUpTo(buf[..], x, c)
    {
      ghost var was := buf[..];
      assert BlockHalf(was, x[c], c);
      DoubleBlock(buf, c * Z_PAD);
      BlockGetsDoubled(was, buf[..], x[c], c);
      DoublingStep(was, buf[..], x, c);
    }
  }

  lemma ProductBlock(dst: seq<int>, m: Matrix, x: Word, r: nat)
    requires Blocks(x, |x|) && MatrixOk(m, |x|) && r < |m| && r * Z_PAD + Z_PAD <= |dst|
    requires Within(m[r], |x|) && Multiplied(dst, r * Z_PAD, NoSum(), m[r], x)
    ensures BlockHalf(dst, Times(m, x)[r], r)
  {
    forall j: nat | j < Z
      ensures Lane(dst, r * Z_PAD, j) == Times(m, x)[r][j]
    {
      assert Lane(dst, r * Z_PAD, j) == (NoSum()[j] + Sum(m[r], x, j)) % 2;
    }
  }

  /** A whole matrix times the source blocks, then every product block doubled. */
  method SpmvRows(dst: array<int>, src: array<int>, table: array<int>, rows: nat, width: nat, ghost m: Matrix,
                  ghost x: Word)
    requires dst != src && dst != table && Doubled(src[..], x) && |x| <= MAX_COLS && width > 0
    requires |m| == rows && MatrixOk(m, |x|) && TableHolds(table[..], width, m) && dst.Length == rows * Z_PAD
    modifies dst
    ensures Doubled(dst[..], Times(m, x))
  {
    var base := 0;
    ghost var entries, srcs := table[..], src[..];
    for br := 0 to rows
      invariant base == RowStart(br, width)
      invariant HalvesUpTo(dst[..], Times(m, x), br)
    {
      assert RowHeld(entries, width, m, br);
      assert table[..] == entries && src[..] == srcs;
      ghost var was := dst[..];
      SpmvBlockRow(dst, br * Z_PAD, src, table, base, width, m[br], x);
      ProductBlock(dst[..], m, x, br);
      HalvesGrow(was, dst[..], Times(m, x), br);
      base := base + width;
    }
    DoubleAll(dst, rows, Times(m, x));
  }

  function Sums(t: TermRow, x: Word): (acc: seq<int>)
    requires Blocks(x, |x|) && Within(t, |x|)
    ensures |acc| == Z && forall i :: 0 <= i < Z ==> acc[i] == Sum(t, x, i)
  {
    seq(Z, i requires 0 <= i < Z => Sum(t, x, i))
  }

  lemma Reseeded(dst: seq<int>, at: nat, acc: seq<int>, t: TermRow, x: Word, acc': seq<int>, t': TermRow, x': Word)
    requires Blocks(x, |x|) && Within(t, |x|) && Accumulated(dst, at, acc, t, x)
    requires Blocks(x', |x'|) && Within(t', |x'|) && |acc'| == Z
    requires forall i :: 0 <= i < Z ==> acc[i] + Sum(t, x, i) == acc'[i] + Sum(t', x', i)
    ensures Accumulated(dst, at, acc', t', x')
  {
  }

  /** Start the block from its first edge, in C if there is one, else in D. */
  method StartCD(dst: array<int>, at: nat, info: array<int>, pa: array<int>,
                 tableC: array<int>, baseC: nat, kb: nat, tableD: array<int>, baseD: nat, g: nat,
                 ghost c: TermRow, ghost d: TermRow, ghost x: Word, ghost y: Word)
    returns (cBegin: nat, dBegin: nat, empty: bool)
    requires dst != info && dst != pa && at + Z <= dst.Length && kb > 0 && g > 0
    requires Doubled(info[..], x) && |x| <= MAX_COLS && Doubled(pa[..], y) && |y| <= MAX_COLS
    requires Compacted(tableC[..], baseC, kb, c) && Within(c, |x|)
    requires Compacted(tableD[..], baseD, g, d) && Within(d, |y|)
    modifies dst
    ensures KeptOutside(dst[..], old(dst[..]), at, at + Z)
    ensures cBegin <= |c| && dBegin <= |d| && Within(c[..cBegin], |x|) && Within(d[..dBegin], |y|)
    ensures !empty ==> Accumulated(dst[..], at, Sums(d[..dBegin], y), c[..cBegin], x)
    ensures empty ==> c == [] && d == [] && (forall i: nat :: i < Z ==> Lane(dst[..], at, i) == 0)
  {
    cBegin, dBegin, empty := 0, 0, false;
    PackedEntry(tableC[..], baseC, kb, c, info[..], x, 0);
    PackedEntry(tableD[..], baseD, g, d, pa[..], y, 0);
    var firstC, firstD := tableC[baseC], tableD[baseD];
    if firstC >= 0 {
      CopyBlock(dst, at, info, firstC);
      FirstEdge(dst[..], at, info[..], firstC, c, x);
      cBegin := 1;
      Reseeded(dst[..], at, NoSum(), c[..1], x, Sums(d[..0], y), c[..1], x);
    } else if firstD >= 0 {
      CopyBlock(dst, at, pa, firstD);
      FirstEdge(dst[..], at, pa[..], firstD, d, y);
      dBegin := 1;
      Reseeded(dst[..], at, NoSum(), d[..1], y, Sums(d[..1], y), c[..0], x);
    } else {
      ZeroBlock(dst, at);
      empty := true;
    }
  }

  /** One lower block row: the information part and the first parity part together. */
  method SpmvBlockRowCD(dst: array<int>, at: nat, info: array<int>, pa: array<int>,
                        tableC: array<int>, baseC: nat, kb: nat, tableD: array<int>, baseD: nat, g: nat,
                        ghost c: TermRow, ghost d: TermRow, ghost x: Word, ghost y: Word)
    requires dst != info && dst != pa && dst != tableC && dst != tableD && at + Z <= dst.Length && kb > 0 && g > 0
    requires Doubled(info[..], x) && |x| <= MAX_COLS && Doubled(pa[..], y) && |y| <= MAX_COLS
    requires Compacted(tableC[..], baseC, kb, c) && Within(c, |x|)
    requires Compacted(tableD[..], baseD, g, d) && Within(d, |y|)
    modifies dst
    ensures Multiplied(dst[..], at, Sums(c, x), d, y)
    ensures KeptOutside(dst[..], old(dst[..]), at, at + Z)
  {
    var cBegin, dBegin, empty := StartCD(dst, at, info, pa, tableC, baseC, kb, tableD, baseD, g, c, d, x, y);
    if empty {
      return;
    }
    AccumulatePackedEdges(dst, at, info, tableC, baseC, kb, cBegin, Sums(d[..dBegin], y), c, x);
    Reseeded(dst[..], at, Sums(d[..dBegin], y), c, x, Sums(c, x), d[..dBegin], y);
    AccumulatePackedEdges(dst, at, pa, tableD, baseD, g, dBegin, Sums(c, x), d, y);
    MaskBlock(dst, at, Sums(c, x), d, y);
  }

  // ---------- one code block ----------

  /** The four parts of the parity-check matrix the encoder works with; bi stands in for B. */
  datatype Tables = Tables(a: Matrix, bi: Matrix, c: Matrix, d: Matrix)

  ghost predicate TablesOk(t: Tables, kb: nat, g: nat) {
    && 2 <= kb <= MAX_COLS && 0 < g <= MAX_COLS
    && |t.a| == g && MatrixOk(t.a, kb) && |t.bi| == g && MatrixOk(t.bi, g)
    && |t.c| == |t.d| && MatrixOk(t.c, kb) && MatrixOk(t.d, g)
  }

  function InfoBlocks(info: seq<int>, kb: nat): (x: Word)
    requires |info| == kb * Z
    ensures Blocks(x, kb)
  {
    seq(kb, c requires 0 <= c < kb => info[c * Z..c * Z + Z])
  }

  /** First parity part: B inverse times A times the information. */
  ghost function FirstParity(t: Tables, x: Word): (y: Word)
    requires TablesOk(t, |x|, |t.a|) && Blocks(x, |x|)
    ensures Blocks(y, |t.a|)
  {
    Times(t.bi, Times(t.a, x))
  }

  ghost function SecondParityBit(t: Tables, x: Word, pa: Word, r: nat, i: nat): int
    requires TablesOk(t, |x|, |t.a|) && Blocks(x, |x|) && Blocks(pa, |t.a|) && r < |t.c| && i < Z
  {
    (Sum(t.c[r], x, i) + Sum(t.d[r], pa, i)) % 2
  }

  /** Second parity part: C times the information plus D times the first parity part. */
  ghost function SecondParity(t: Tables, x: Word): (y: Word)
    requires TablesOk(t, |x|, |t.a|) && Blocks(x, |x|)
    ensures Blocks(y, |t.c|)
    ensures forall r: nat, i: nat :: r < |y| && i < Z ==> y[r][i] == SecondParityBit(t, x, FirstParity(t, x), r, i)
  {
    var pa := FirstParity(t, x);
    seq(|t.c|, r requires 0 <= r < |t.c| => seq(Z, i requires 0 <= i < Z => SecondParityBit(t, x, pa, r, i)))
  }

  /** The codeword before puncturing. */
  ghost function Codeword(t: Tables, x: Word): (w: Word)
    requires TablesOk(t, |x|, |t.a|) && Blocks(x, |x|)
    ensures Blocks(w, |x| + |t.a| + |t.c|)
  {
    x + FirstParity(t, x) + SecondParity(t, x)
  }

  ghost predicate BlockAt(s: seq<int>, block: seq<int>, c: nat) {
    BlockIs(s, c * Z, block)
  }

  ghost predicate BlocksUpTo(s: seq<int>, w: Word, n: nat)
    requires n <= |w|
  {
    forall c: nat :: c < n ==> BlockAt(s, w[c], c)
  }

  lemma BlocksGrow(was: seq<int>, now: seq<int>, w: Word, n: nat)
    requires n < |w| && BlocksUpTo(was, w, n) && BlockAt(now, w[n], n)
    requires KeptOutside(now, was, n * Z, n * Z + Z)
    ensures BlocksUpTo(now, w, n + 1)
  {
    forall c: nat | c < n + 1
      ensures BlockAt(now, w[c], c)
    {
      if c < n {
        assert BlockAt(was, w[c], c);
        forall j: nat | j < Z
          ensures Lane(now, c * Z, j) == w[c][j]
        {
          assert Lane(was, c * Z, j) == w[c][j];
        }
      }
    }
  }

  method LoadInfo(buf: array<int>, info: seq<int>, kb: nat)
    requires |info| == kb * Z && buf.Length == kb * Z_PAD
    modifies buf
    ensures Doubled(buf[..], InfoBlocks(info, kb))
  {
    for bc := 0 to kb
      invariant HalvesUpTo(buf[..], InfoBlocks(info, kb), bc)
    {
      ghost var was := buf[..];
      forall e | 0 <= e < Z {
        buf[bc * Z_PAD + e] := info[bc * Z + e];
      }
      HalvesGrow(was, buf[..], InfoBlocks(info, kb), bc);
    }
    DoubleAll(buf, kb, InfoBlocks(info, kb));
  }

  lemma LowerBlock(dst: seq<int>, t: Tables, x: Word, r: nat)
    requires TablesOk(t, |x|, |t.a|) && Blocks(x, |x|) && r < |t.c| && r * Z + Z <= |dst|
    requires Within(t.c[r], |x|) && Within(t.d[r], |t.a|)
    requires Multiplied(dst, r * Z, Sums(t.c[r], x), t.d[r], FirstParity(t, x))
    ensures BlockAt(dst, SecondParity(t, x)[r], r)
  {
    forall j: nat | j < Z
      ensures Lane(dst, r * Z, j) == SecondParity(t, x)[r][j]
    {
      assert Lane(dst, r * Z, j) == (Sums(t.c[r], x)[j] + Sum(t.d[r], FirstParity(t, x), j)) % 2;
    }
  }

  method LowerRows(pb: array<int>, info: array<int>, pa: array<int>, tableC: array<int>, tableD: array<int>,
                   kb: nat, g: nat, rows: nat, ghost t: Tables, ghost x: Word)
    requires pb != info && pb != pa && pb != tableC && pb != tableD
    requires TablesOk(t, kb, g) && |t.c| == rows && Blocks(x, kb) && pb.Length == rows * Z
    requires Doubled(info[..], x) && Doubled(pa[..], FirstParity(t, x))
    requires TableHolds(tableC[..], kb, t.c) && TableHolds(tableD[..], g, t.d)
    modifies pb
    ensures BlocksUpTo(pb[..], SecondParity(t, x), rows)
  {
    var baseC, baseD := 0, 0;
    ghost var cs, ds, infos, pas := tableC[..], tableD[..], info[..], pa[..];
    for br := 0 to rows
      invariant baseC == RowStart(br, kb) && baseD == RowStart(br, g)
      invariant BlocksUpTo(pb[..], SecondParity(t, x), br)
    {
      assert RowHeld(cs, kb, t.c, br) && RowHeld(ds, g, t.d, br);
      assert tableC[..] == cs && tableD[..] == ds && info[..] == infos && pa[..] == pas;
      ghost var was := pb[..];
      SpmvBlockRowCD(pb, br * Z, info, pa, tableC, baseC, kb, tableD, baseD, g, t.c[br], t.d[br], x, FirstParity(t, x));
      LowerBlock(pb[..], t, x, br);
      BlocksGrow(was, pb[..], SecondParity(t, x), br);
      baseC := baseC + kb;
      baseD := baseD + g;
    }
  }

  /** Copy one block of Z values to output block n. */
  method PutBlock(out: array<int>, n: nat, src: array<int>, from: nat, ghost w: Word)
    requires out != src && n < |w| && n * Z + Z <= out.Length && BlockIs(src[..], from, w[n])
    requires BlocksUpTo(out[..], w, n)
    modifies out
    ensures BlocksUpTo(out[..], w, n + 1)
  {
    ghost var was, srcs := out[..], src[..];
    CopyBlock(out, n * Z, src, from);
    assert src[..] == srcs;
    forall j: nat | j < Z
      ensures Lane(out[..], n * Z, j) == w[n][j]
    {
      assert Lane(srcs, from, j) == w[n][j];
      assert Lane(out[..], n * Z, j) == Lane(srcs, from, j);
    }
    BlocksGrow(was, out[..], w, n);
  }

  /** Information without its first two blocks, then both parity parts. */
  method Assemble(out: array<int>, info: array<int>, pa: array<int>, pb: array<int>, kb: nat, g: nat, rows: nat,
                  ghost x: Word, ghost ya: Word, ghost yb: Word)
    requires out != info && out != pa && out != pb && 2 <= kb
    requires Doubled(info[..], x) && |x| == kb && Doubled(pa[..], ya) && |ya| == g
    requires |yb| == rows && BlocksUpTo(pb[..], yb, rows) && out.Length == (kb - 2 + g + rows) * Z
    modifies out
    ensures BlocksUpTo(out[..], (x + ya + yb)[2..], kb - 2 + g + rows)
  {
    ghost var w, infos, pas, pbs := (x + ya + yb)[2..], info[..], pa[..], pb[..];
    for c := 2 to kb
      invariant BlocksUpTo(out[..], w, c - 2)
    {
      assert info[..] == infos && BlockDoubled(infos, x[c], c);
      PutBlock(out, c - 2, info, c * Z_PAD, w);
    }
    for c := 0 to g
      invariant BlocksUpTo(out[..], w, kb - 2 + c)
    {
      assert pa[..] == pas && BlockDoubled(pas, ya[c], c);
      PutBlock(out, kb - 2 + c, pa, c * Z_PAD, w);
    }
    for c := 0 to rows
      invariant BlocksUpTo(out[..], w, kb - 2 + g + c)
    {
      assert pb[..] == pbs && BlockAt(pbs, yb[c], c);
      PutBlock(out, kb - 2 + g + c, pb, c * Z, w);
    }
  }

  /** The compacted shift tables. */
  datatype Shifts = Shifts(a: array<int>, bi: array<int>, c: array<int>, d: array<int>)

  ghost predicate ShiftsHold(s: Shifts, t: Tables, kb: nat, g: nat)
    reads s.a, s.bi, s.c, s.d
  {
    && TablesOk(t, kb, g) && TableHolds(s.a[..], kb, t.a) && TableHolds(s.bi[..], 4 * g, t.bi)
    && TableHolds(s.c[..], kb, t.c) && TableHolds(s.d[..], g, t.d)
  }

  /** Encode one code block. */
  method EncodeOne(s: Shifts, ghost t: Tables, info: seq<int>, kb: nat, g: nat, rows: nat) returns (out: seq<int>)
    requires ShiftsHold(s, t, kb, g) && |t.c| == rows && |info| == kb * Z
    ensures |out| == (kb - 2 + g + rows) * Z
    ensures BlocksUpTo(out, Codeword(t, InfoBlocks(info, kb))[2..], kb - 2 + g + rows)
  {
    ghost var x := InfoBlocks(info, kb);
    ghost var sa, sbi, sc, sd := s.a[..], s.bi[..], s.c[..], s.d[..];
    var infoPad, axPad, paPad := new int[kb * Z_PAD], new int[g * Z_PAD], new int[g * Z_PAD];
    var pb, buf := new int[rows * Z], new int[(kb - 2 + g + rows) * Z];
    LoadInfo(infoPad, info, kb);
    assert s.a[..] == sa && s.bi[..] == sbi && s.c[..] == sc && s.d[..] == sd;
    ghost var infos := infoPad[..];
    SpmvRows(axPad, infoPad, s.a, g, kb, t.a, x);
    assert infoPad[..] == infos && s.bi[..] == sbi && s.c[..] == sc && s.d[..] == sd;
    SpmvRows(paPad, axPad, s.bi, g, 4 * g, t.bi, Times(t.a, x));
    assert infoPad[..] == infos && s.c[..] == sc && s.d[..] == sd;
    ghost var pas := paPad[..];
    LowerRows(pb, infoPad, paPad, s.c, s.d, kb, g, rows, t, x);
    assert infoPad[..] == infos && paPad[..] == pas;
    Assemble(buf, infoPad, paPad, pb, kb, g, rows, x, FirstParity(t, x), SecondParity(t, x));
    out := buf[..];
  }
}
