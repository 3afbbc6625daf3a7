/** The encoder's output satisfies every check of the decoder's table. */
module EncodeSyndrome {
  import opened LayeredDecoder
  import opened ShiftKernel
  import opened QcMatrix
  import opened EncodeKernel
  import opened EncodeBlock

  /** Bits that check i of a table row meets in its first m columns, summed. */
  ghost function ColumnSum(row: seq<int>, w: Word, i: nat, m: nat): int
    requires Blocks(w, |w|) && m <= |row| <= |w| && ShiftsOk(row) && i < Z
  {
    if m == 0 then 0
    else ColumnSum(row, w, i, m - 1) + if row[m - 1] >= 0 then w[m - 1][BitOf(i, row[m - 1], Z)] else 0
  }

  /** One circulant per column: a table row without repeated blocks. */
  function RowTerms(row: seq<int>): TermRow {
    Terms(row, 1, |row|)
  }

  lemma TermsGrow(row: seq<int>, m: nat)
    requires 0 < m <= |row|
    ensures var s, front := row[m - 1], TermsUpTo(row, 1, m - 1, 0);
            TermsUpTo(row, 1, m, 0) == if s >= 0 then front + [Term(m - 1, s)] else front
  {
    assert TermsUpTo(row, 1, m, 0) == TermsUpTo(row, 1, m - 1, 1);
    assert Slot(m - 1, 0, 1) == m - 1;
  }

  lemma SumGrows(t: TermRow, e: Term, w: Word, i: nat)
    requires Blocks(w, |w|) && Within(t, |w|) && e.col < |w| && e.shift < Z && i < Z
    ensures Within(t + [e], |w|) && Sum(t + [e], w, i) == Sum(t, w, i) + Picked(e, w, i)
  {
    assert (t + [e])[..|t|] == t;
  }

  lemma {:induction false} PrefixTerms(row: seq<int>, w: Word, i: nat, m: nat)
    requires Blocks(w, |w|) && m <= |row| <= |w| && ShiftsOk(row) && i < Z
    ensures Within(TermsUpTo(row, 1, m, 0), |w|)
    ensures Sum(TermsUpTo(row, 1, m, 0), w, i) == ColumnSum(row, w, i, m)
  {
    if m > 0 {
      PrefixTerms(row, w, i, m - 1);
      TermsGrow(row, m);
      if row[m - 1] >= 0 {
        SumGrows(TermsUpTo(row, 1, m - 1, 0), Term(m - 1, row[m - 1]), w, i);
      }
    }
  }

  lemma TermsSum(row: seq<int>, w: Word, i: nat)
    requires Blocks(w, |w|) && |row| == |w| && ShiftsOk(row) && i < Z
    ensures Within(RowTerms(row), |w|) && Sum(RowTerms(row), w, i) == ColumnSum(row, w, i, |row|)
  {
    PrefixTerms(row, w, i, |row|);
  }

  lemma {:induction false} ColumnSumFront(row: seq<int>, w: Word, row': seq<int>, w': Word, i: nat, m: nat)
    requires Blocks(w, |w|) && m <= |row| <= |w| && ShiftsOk(row) && i < Z
    requires Blocks(w', |w'|) && m <= |row'| <= |w'| && ShiftsOk(row')
    requires forall c :: 0 <= c < m ==> row[c] == row'[c] && w[c] == w'[c]
    ensures ColumnSum(row, w, i, m) == ColumnSum(row', w', i, m)
  {
    if m > 0 {
      ColumnSumFront(row, w, row', w', i, m - 1);
    }
  }

  lemma {:induction false} ColumnSumAppend(a: seq<int>, b: seq<int>, x: Word, y: Word, i: nat, m: nat, n: nat)
    requires Blocks(x, |x|) && Blocks(y, |y|) && |a| == |x| && |b| == |y| && m <= |b| && n == |a| + m
    requires ShiftsOk(a) && ShiftsOk(b) && i < Z
    ensures ColumnSum(a + b, x + y, i, n) == ColumnSum(a, x, i, |x|) + ColumnSum(b, y, i, m)
  {
    if m == 0 {
      ColumnSumFront(a + b, x + y, a, x, i, |a|);
    } else {
      ColumnSumAppend(a, b, x, y, i, m - 1, n - 1);
    }
  }

  /** An empty block row (u out of range) or one identity block in column u. */
  ghost predicate UnitRow(row: seq<int>, u: int) {
    forall c :: 0 <= c < |row| ==> row[c] == if c == u then 0 else -1
  }

  lemma {:induction false} UnitColumns(row: seq<int>, w: Word, i: nat, m: nat, u: int)
    requires Blocks(w, |w|) && m <= |row| <= |w| && ShiftsOk(row) && i < Z && UnitRow(row, u)
    ensures ColumnSum(row, w, i, m) == if 0 <= u < m then w[u][i] else 0
  {
    if m > 0 {
      UnitColumns(row, w, i, m - 1, u);
    }
  }

  // ---------- the ones of a check and their sum ----------

  ghost function OnesUpTo(code: Code, w: Word, r: nat, i: nat, m: nat): set<nat>
    requires ValidCode(code) && WordShaped(code, w) && r < |code.table| && i < code.z && m <= code.n
  {
    set c: nat | c < m && code.table[r][c] >= 0 && w[c][BitOf(i, code.table[r][c], code.z)] == 1
  }

  lemma {:induction false} OnesCounted(code: Code, w: Word, r: nat, i: nat, m: nat)
    requires ValidCode(code) && code.z == Z && WordShaped(code, w) && r < |code.table| && i < Z && m <= code.n
    ensures |OnesUpTo(code, w, r, i, m)| == ColumnSum(code.table[r], w, i, m)
  {
    if m == 0 {
      assert OnesUpTo(code, w, r, i, 0) == {};
    } else {
      OnesCounted(code, w, r, i, m - 1);
      var before, s := OnesUpTo(code, w, r, i, m - 1), code.table[r][m - 1];
      if s >= 0 && w[m - 1][BitOf(i, s, Z)] == 1 {
        assert OnesUpTo(code, w, r, i, m) == before + {m - 1};
      } else {
        assert OnesUpTo(code, w, r, i, m) == before;
      }
    }
  }

  /** Check i of row r holds exactly when its bits sum to an even number. */
  lemma CheckIsParity(code: Code, w: Word, r: nat, i: nat)
    requires ValidCode(code) && code.z == Z && WordShaped(code, w) && r < |code.table| && i < Z
    ensures |OnesOn(code, w, r, i)| == ColumnSum(code.table[r], w, i, code.n)
  {
    OnesCounted(code, w, r, i, code.n);
    assert OnesOn(code, w, r, i) == OnesUpTo(code, w, r, i, code.n);
  }

  // ---------- the syndrome as the preparation script computes it ----------

  function Xor(a: int, b: int): int {
    if a == b then 0 else 1
  }

  ghost predicate SyndromeUpTo(s: seq<int>, row: seq<int>, w: Word, m: nat)
    requires Blocks(w, |w|) && m <= |row| <= |w| && ShiftsOk(row)
  {
    |s| == Z && forall i: nat :: i < Z ==> s[i] == ColumnSum(row, w, i, m) % 2
  }

  ghost predicate Bits(w: Word) {
    forall c, j :: 0 <= c < |w| && 0 <= j < |w[c]| ==> w[c][j] == 0 || w[c][j] == 1
  }

  /** XOR the picked bits of every nonempty block into a block of zeros. */
  method RowSyndrome(row: seq<int>, w: Word) returns (s: seq<int>)
    requires Blocks(w, |w|) && |row| == |w| && ShiftsOk(row) && Bits(w)
    ensures SyndromeUpTo(s, row, w, |row|)
  {
    s := seq(Z, _ => 0);
    for bc := 0 to |row|
      invariant SyndromeUpTo(s, row, w, bc)
    {
      var shift := row[bc];
      if shift >= 0 {
        s := seq(Z, i requires 0 <= i < Z && |s| == Z => Xor(s[i], w[bc][BitOf(i, shift, Z)]));
      }
    }
  }

  /** All block rows; true when no syndrome bit is set. */
  method SyndromeIsZero(code: Code, w: Word) returns (zero: bool)
    requires ValidCode(code) && code.z == Z && WordShaped(code, w)
    ensures zero <==> IsCodeword(code, w)
  {
    for br := 0 to |code.table|
      invariant forall r: nat, i: nat :: r < br && i < Z ==> |OnesOn(code, w, r, i)| % 2 == 0
    {
      var s := RowSyndrome(code.table[br], w);
      forall i: nat | i < Z
        ensures s[i] == |OnesOn(code, w, br, i)| % 2
      {
        CheckIsParity(code, w, br, i);
      }
      for i := 0 to Z
        invariant forall i': nat :: i' < i ==> s[i'] == 0
      {
        if s[i] != 0 {
          return false;
        }
      }
    }
    zero := true;
  }

  // ---------- the theorem ----------

  /** A table row in the encoder's three column ranges. */
  ghost predicate RowSplits(row: seq<int>, kb: nat, g: nat, left: TermRow, middle: TermRow, unit: int)
    requires kb + g <= |row|
  {
    && RowTerms(row[..kb]) == left && RowTerms(row[kb..kb + g]) == middle
    && UnitRow(row[kb + g..], unit)
  }

  ghost predicate RowFor(code: Code, t: Tables, b: Matrix, kb: nat, r: nat)
    requires |b| == |t.a| && |t.c| == |t.d| && |code.table| == |t.a| + |t.c|
    requires r < |code.table| && |code.table[r]| == kb + |t.a| + |t.c|
  {
    var g := |t.a|;
    if r < g then RowSplits(code.table[r], kb, g, t.a[r], b[r], -1)
    else RowSplits(code.table[r], kb, g, t.c[r - g], t.d[r - g], r - g)
  }

  /** The decoder's table is [A B 0; C D I], and the encoder's bi is a right inverse of B. */
  ghost predicate EncoderFor(code: Code, t: Tables, b: Matrix, kb: nat) {
    && ValidCode(code) && code.z == Z && TablesOk(t, kb, |t.a|) && InverseOf(t.bi, b)
    && |b| == |t.a| && |code.table| == |t.a| + |t.c| && code.n == kb + |t.a| + |t.c|
    && forall r: nat :: r < |code.table| ==> RowFor(code, t, b, kb, r)
  }

  /** A row's sum over the three parts of a codeword. */
  lemma ThreeParts(ra: seq<int>, rb: seq<int>, rc: seq<int>, x: Word, ya: Word, yb: Word, i: nat, n: nat)
    requires Blocks(x, |x|) && Blocks(ya, |ya|) && Blocks(yb, |yb|) && n == |x| + |ya| + |yb|
    requires |ra| == |x| && |rb| == |ya| && |rc| == |yb|
    requires ShiftsOk(ra) && ShiftsOk(rb) && ShiftsOk(rc) && i < Z
    ensures ColumnSum(ra + rb + rc, x + ya + yb, i, n)
            == ColumnSum(ra, x, i, |x|) + ColumnSum(rb, ya, i, |ya|) + ColumnSum(rc, yb, i, |yb|)
  {
    var front, both := ra + rb, x + ya;
    ColumnSumAppend(front, rc, both, yb, i, |yb|, n);
    ColumnSumAppend(ra, rb, x, ya, i, |ya|, |both|);
  }

  ghost predicate PartIs(part: seq<int>, t: TermRow, x: Word, i: nat)
    requires Blocks(x, |x|) && |part| == |x| && ShiftsOk(part) && i < Z
  {
    Within(t, |x|) && Sum(t, x, i) == ColumnSum(part, x, i, |x|)
  }

  lemma ThreeSlices(row: seq<int>, m: nat, n: nat)
    requires m <= n <= |row| && ShiftsOk(row)
    ensures row == row[..m] + row[m..n] + row[n..]
    ensures ShiftsOk(row[..m]) && ShiftsOk(row[m..n]) && ShiftsOk(row[n..])
  {
  }

  lemma PartHasTerms(part: seq<int>, t: TermRow, x: Word, i: nat)
    requires Blocks(x, |x|) && |part| == |x| && ShiftsOk(part) && i < Z && RowTerms(part) == t
    ensures PartIs(part, t, x, i)
  {
    TermsSum(part, x, i);
  }

  lemma PartsSum(row: seq<int>, ra: seq<int>, rb: seq<int>, rc: seq<int>, left: TermRow, middle: TermRow, unit: int,
                 x: Word, ya: Word, yb: Word, i: nat)
    requires Blocks(x, |x|) && Blocks(ya, |ya|) && Blocks(yb, |yb|) && |row| == |x| + |ya| + |yb|
    requires |ra| == |x| && |rb| == |ya| && |rc| == |yb| && row == ra + rb + rc && ShiftsOk(row)
    requires ShiftsOk(ra) && ShiftsOk(rb) && ShiftsOk(rc) && i < Z && unit < |yb|
    requires PartIs(ra, left, x, i) && PartIs(rb, middle, ya, i) && UnitRow(rc, unit)
    ensures ColumnSum(row, x + ya + yb, i, |row|)
            == Sum(left, x, i) + Sum(middle, ya, i) + if unit >= 0 then yb[unit][i] else 0
  {
    UnitColumns(rc, yb, i, |yb|, unit);
    ThreeParts(ra, rb, rc, x, ya, yb, i, |row|);
  }

  lemma RowSum(row: seq<int>, left: TermRow, middle: TermRow, unit: int, x: Word, ya: Word, yb: Word, i: nat)
    requires Blocks(x, |x|) && Blocks(ya, |ya|) && Blocks(yb, |yb|) && |row| == |x| + |ya| + |yb|
    requires ShiftsOk(row) && i < Z && RowSplits(row, |x|, |ya|, left, middle, unit) && unit < |yb|
    ensures Within(left, |x|) && Within(middle, |ya|)
    ensures ColumnSum(row, x + ya + yb, i, |row|)
            == Sum(left, x, i) + Sum(middle, ya, i) + if unit >= 0 then yb[unit][i] else 0
  {
    var ra, rb, rc := row[..|x|], row[|x|..|x| + |ya|], row[|x| + |ya|..];
    ThreeSlices(row, |x|, |x| + |ya|);
    PartHasTerms(ra, left, x, i);
    PartHasTerms(rb, middle, ya, i);
    PartsSum(row, ra, rb, rc, left, middle, unit, x, ya, yb, i);
  }

  lemma UpperCheckHolds(code: Code, t: Tables, b: Matrix, x: Word, r: nat, i: nat)
    requires EncoderFor(code, t, b, |x|) && Blocks(x, |x|) && r < |t.a| && i < Z
    ensures ColumnSum(code.table[r], Codeword(t, x), i, code.n) % 2 == 0
  {
    var ya := FirstParity(t, x);
    assert RowFor(code, t, b, |x|, r);
    RowSum(code.table[r], t.a[r], b[r], -1, x, ya, SecondParity(t, x), i);
    FirstParityCancels(code, t, b, x, r, i);
    CancelsMod2(ColumnSum(code.table[r], Codeword(t, x), i, code.n), Sum(t.a[r], x, i), Sum(b[r], ya, i));
  }

  lemma FirstParityCancels(code: Code, t: Tables, b: Matrix, x: Word, r: nat, i: nat)
    requires EncoderFor(code, t, b, |x|) && Blocks(x, |x|) && r < |t.a| && i < Z
    ensures Within(t.a[r], |x|) && Within(b[r], |t.a|)
    ensures Sum(b[r], FirstParity(t, x), i) % 2 == (Sum(t.a[r], x, i) % 2) % 2
  {
    InverseUndoes(b, t.bi, Times(t.a, x), r, i);
  }

  lemma CancelsMod2(total: int, a: int, b: int)
    requires total == a + b && b % 2 == (a % 2) % 2
    ensures total % 2 == 0
  {
  }

  lemma SecondParityIs(code: Code, t: Tables, b: Matrix, x: Word, u: nat, i: nat)
    requires EncoderFor(code, t, b, |x|) && Blocks(x, |x|) && u < |t.c| && i < Z
    ensures Within(t.c[u], |x|) && Within(t.d[u], |t.a|)
    ensures SecondParity(t, x)[u][i] == (Sum(t.c[u], x, i) + Sum(t.d[u], FirstParity(t, x), i)) % 2
  {
  }

  lemma LowerCheckHolds(code: Code, t: Tables, b: Matrix, x: Word, r: nat, i: nat)
    requires EncoderFor(code, t, b, |x|) && Blocks(x, |x|) && |t.a| <= r < |code.table| && i < Z
    ensures ColumnSum(code.table[r], Codeword(t, x), i, code.n) % 2 == 0
  {
    var ya, yb, u := FirstParity(t, x), SecondParity(t, x), r - |t.a|;
    assert RowFor(code, t, b, |x|, r);
    RowSum(code.table[r], t.c[u], t.d[u], u, x, ya, yb, i);
    SecondParityIs(code, t, b, x, u, i);
    CancelsMod2(ColumnSum(code.table[r], Codeword(t, x), i, code.n), Sum(t.c[u], x, i) + Sum(t.d[u], ya, i), yb[u][i]);
  }

  lemma CodewordIsBits(code: Code, t: Tables, x: Word)
    requires TablesOk(t, |x|, |t.a|) && Blocks(x, |x|) && Bits(x) && code.z == Z && code.n == |x| + |t.a| + |t.c|
    ensures WordShaped(code, Codeword(t, x))
  {
  }

  /** Zero syndrome: for all information bits, the encoder's codeword satisfies every check. */
  lemma ZeroSyndrome(code: Code, t: Tables, b: Matrix, x: Word)
    requires EncoderFor(code, t, b, |x|) && Blocks(x, |x|) && Bits(x)
    ensures IsCodeword(code, Codeword(t, x))
  {
    var w := Codeword(t, x);
    CodewordIsBits(code, t, x);
    forall r, i | 0 <= r < |code.table| && 0 <= i < code.z
      ensures |OnesOn(code, w, r, i)| % 2 == 0
    {
      CheckIsParity(code, w, r, i);
      if r < |t.a| {
        UpperCheckHolds(code, t, b, x, r, i);
      } else {
        LowerCheckHolds(code, t, b, x, r, i);
      }
    }
  }
}
