/** Quasi-cyclic matrices over GF(2) as lists of circulants, and their products. */
module QcMatrix {
  import opened LayeredDecoder
  import opened ShiftKernel

  /** One circulant: row i of the block has its one in column (i + shift) mod Z of block column col. */
  datatype Term = Term(col: nat, shift: nat)

  /** A block row: any number of circulants, several may share a column. */
  type TermRow = seq<Term>

  predicate Within(t: TermRow, cols: nat) {
    forall k :: 0 <= k < |t| ==> t[k].col < cols && t[k].shift < Z
  }

  /** cols blocks of Z values. */
  predicate Blocks(x: Word, cols: nat) {
    |x| == cols && forall c :: 0 <= c < cols ==> |x[c]| == Z
  }

  /** The entry of x that a circulant picks for row i. */
  function Picked(t: Term, x: Word, i: nat): int
    requires Blocks(x, |x|) && t.col < |x| && t.shift < Z && i < Z
  {
    x[t.col][BitOf(i, t.shift, Z)]
  }

  /** Row i of the block row times x, over the integers. */
  function Sum(t: TermRow, x: Word, i: nat): int
    requires Blocks(x, |x|) && Within(t, |x|) && i < Z
  {
    if t == [] then 0 else Sum(t[..|t| - 1], x, i) + Picked(t[|t| - 1], x, i)
  }

  lemma {:induction false} SumAppend(a: TermRow, b: TermRow, x: Word, i: nat)
    requires Blocks(x, |x|) && Within(a, |x|) && Within(b, |x|) && i < Z
    ensures Within(a + b, |x|) && Sum(a + b, x, i) == Sum(a, x, i) + Sum(b, x, i)
  {
    if b == [] {
      assert a + b == a;
    } else {
      SumAppend(a, b[..|b| - 1], x, i);
      assert (a + b)[..|a + b| - 1] == a + b[..|b| - 1];
    }
  }

  ghost predicate AllEven(t: TermRow) {
    forall e: Term :: multiset(t)[e] % 2 == 0
  }

  lemma LastHasTwin(t: TermRow) returns (j: nat)
    requires t != [] && AllEven(t)
    ensures j < |t| - 1 && t[j] == t[|t| - 1]
  {
    var last, front := t[|t| - 1], t[..|t| - 1];
    assert t == front + [last];
    assert multiset(t)[last] % 2 == 0;
    assert last in multiset(front);
    j :| 0 <= j < |front| && front[j] == last;
  }

  /** t without its last element and without element j. */
  function Unpaired(t: TermRow, j: nat): TermRow
    requires j < |t| - 1
  {
    t[..j] + t[j + 1..|t| - 1]
  }

  lemma PairCounts(a: TermRow, last: Term, c: TermRow, e: Term)
    ensures multiset(a + [last] + c + [last])[e] == multiset(a + c)[e] + if e == last then 2 else 0
  {
    assert multiset(a + [last] + c + [last]) == multiset(a + c) + multiset{last, last};
  }

  lemma UnpairedCounts(t: TermRow, j: nat)
    requires j < |t| - 1 && t[j] == t[|t| - 1] && AllEven(t)
    ensures AllEven(Unpaired(t, j))
  {
    var a, c := t[..j], t[j + 1..|t| - 1];
    assert t == a + [t[j]] + c + [t[j]];
    forall e: Term
      ensures multiset(Unpaired(t, j))[e] % 2 == 0
    {
      PairCounts(a, t[j], c, e);
      assert multiset(t)[e] % 2 == 0;
    }
  }

  lemma SumSplits(a: TermRow, e: Term, c: TermRow, x: Word, i: nat)
    requires Blocks(x, |x|) && Within(a, |x|) && Within(c, |x|) && e.col < |x| && e.shift < Z && i < Z
    ensures Within(a + [e] + c, |x|) && Within(a + c, |x|)
    ensures Sum(a + [e] + c, x, i) == Sum(a + c, x, i) + Picked(e, x, i)
  {
    SumAppend(a + [e], c, x, i);
    SumAppend(a, [e], x, i);
    SumAppend(a, c, x, i);
    assert Sum([e], x, i) == Sum([], x, i) + Picked(e, x, i);
  }

  lemma UnpairedSum(t: TermRow, j: nat, x: Word, i: nat)
    requires j < |t| - 1 && t[j] == t[|t| - 1]
    requires Blocks(x, |x|) && Within(t, |x|) && i < Z
    ensures Within(Unpaired(t, j), |x|)
    ensures Sum(t, x, i) == Sum(Unpaired(t, j), x, i) + 2 * Picked(t[j], x, i)
  {
    var a, c := t[..j], t[j + 1..|t| - 1];
    assert t[..|t| - 1] == a + [t[j]] + c;
    SumSplits(a, t[j], c, x, i);
  }

  /** Circulants that occur in pairs cancel over GF(2). */
  lemma {:induction false} EvenRowVanishes(t: TermRow, x: Word, i: nat)
    requires Blocks(x, |x|) && Within(t, |x|) && i < Z && AllEven(t)
    ensures Sum(t, x, i) % 2 == 0
    decreases |t|
  {
    if t != [] {
      var j := LastHasTwin(t);
      UnpairedCounts(t, j);
      UnpairedSum(t, j, x, i);
      EvenRowVanishes(Unpaired(t, j), x, i);
    }
  }

  /** A matrix: one list of circulants per block row. */
  type Matrix = seq<TermRow>

  ghost predicate MatrixOk(m: Matrix, cols: nat) {
    forall r :: 0 <= r < |m| ==> Within(m[r], cols)
  }

  /** Matrix times vector over GF(2). */
  function Times(m: Matrix, x: Word): (y: Word)
    requires Blocks(x, |x|) && MatrixOk(m, |x|)
    ensures Blocks(y, |m|)
    ensures forall r, i :: 0 <= r < |m| && 0 <= i < Z ==> y[r][i] == Sum(m[r], x, i) % 2
  {
    seq(|m|, r requires 0 <= r < |m| => seq(Z, i requires 0 <= i < Z => Sum(m[r], x, i) % 2))
  }

  /** One circulant times a block row. */
  function Turned(s: nat, t: TermRow, cols: nat): (u: TermRow)
    requires s < Z && Within(t, cols)
    ensures Within(u, cols) && |u| == |t|
  {
    if t == [] then []
    else Turned(s, t[..|t| - 1], cols) + [Term(t[|t| - 1].col, BitOf(t[|t| - 1].shift, s, Z))]
  }

  /** A block row times a matrix: all products of circulants, repeats kept. */
  function RowTimes(t: TermRow, m: Matrix, cols: nat): (u: TermRow)
    requires Within(t, |m|) && MatrixOk(m, cols)
    ensures Within(u, cols)
  {
    if t == [] then []
    else
      var last := t[|t| - 1];
      assert Within(m[last.col], cols);
      RowTimes(t[..|t| - 1], m, cols) + Turned(last.shift, m[last.col], cols)
  }

  /** Over GF(2) the product a * b is the identity: in row r only the circulant (r, 0) survives. */
  ghost predicate InverseOf(b: Matrix, a: Matrix) {
    && |a| == |b| && MatrixOk(a, |b|) && MatrixOk(b, |a|)
    && forall r: nat :: r < |a| ==> RowIsUnit(RowTimes(a[r], b, |a|), Term(r, 0))
  }

  /** Every circulant occurs an even number of times, except the given one. */
  ghost predicate RowIsUnit(t: TermRow, unit: Term) {
    AllEven(t + [unit])
  }

  lemma BitOfTwice(i: nat, s: nat, t: nat)
    requires i < Z && s < Z && t < Z
    ensures BitOf(BitOf(i, s, Z), t, Z) == BitOf(i, BitOf(t, s, Z), Z)
  {
  }

  lemma {:induction false} SumOfTurned(s: nat, t: TermRow, x: Word, i: nat)
    requires Blocks(x, |x|) && s < Z && Within(t, |x|) && i < Z
    ensures Sum(Turned(s, t, |x|), x, i) == Sum(t, x, BitOf(i, s, Z))
  {
    if t != [] {
      var last, front := t[|t| - 1], t[..|t| - 1];
      SumOfTurned(s, front, x, i);
      var u := Turned(s, t, |x|);
      assert u[..|u| - 1] == Turned(s, front, |x|);
      BitOfTwice(i, s, last.shift);
    }
  }

  lemma ParitiesAdd(a: int, b: int, c: int, d: int)
    requires a % 2 == b % 2 && c % 2 == d % 2
    ensures (a + c) % 2 == (b + d) % 2
  {
  }

  lemma ParitiesCancel(a: int, b: int)
    requires (a + b) % 2 == 0
    ensures a % 2 == b % 2
  {
  }

  lemma ParityTwice(a: int)
    ensures (a % 2) % 2 == a % 2
  {
  }

  ghost predicate LastAgrees(last: Term, m: Matrix, x: Word, y: Word, i: nat)
    requires Blocks(x, |x|) && Blocks(y, |m|) && last.col < |m| && last.shift < Z && i < Z
  {
    Within(m[last.col], |x|) && Picked(last, y, i) % 2 == Sum(Turned(last.shift, m[last.col], |x|), x, i) % 2
  }

  /** What the last circulant of t contributes to a product. */
  lemma LastActs(last: Term, m: Matrix, x: Word, i: nat)
    requires Blocks(x, |x|) && MatrixOk(m, |x|) && last.col < |m| && last.shift < Z && i < Z
    ensures LastAgrees(last, m, x, Times(m, x), i)
  {
    SumOfTurned(last.shift, m[last.col], x, i);
    ParityTwice(Sum(m[last.col], x, BitOf(i, last.shift, Z)));
  }

  lemma RowTimesSum(t: TermRow, m: Matrix, x: Word, i: nat)
    requires t != [] && Blocks(x, |x|) && MatrixOk(m, |x|) && Within(t, |m|) && i < Z
    ensures var last := t[|t| - 1];
            && Within(m[last.col], |x|)
            && Sum(RowTimes(t, m, |x|), x, i)
               == Sum(RowTimes(t[..|t| - 1], m, |x|), x, i) + Sum(Turned(last.shift, m[last.col], |x|), x, i)
  {
    var last := t[|t| - 1];
    assert Within(m[last.col], |x|);
    SumAppend(RowTimes(t[..|t| - 1], m, |x|), Turned(last.shift, m[last.col], |x|), x, i);
  }

  lemma ProductStep(t: TermRow, m: Matrix, x: Word, y: Word, i: nat)
    requires t != [] && Blocks(x, |x|) && MatrixOk(m, |x|) && Within(t, |m|) && i < Z
    requires Blocks(y, |m|) && LastAgrees(t[|t| - 1], m, x, y, i)
    requires Sum(t[..|t| - 1], y, i) % 2 == Sum(RowTimes(t[..|t| - 1], m, |x|), x, i) % 2
    ensures Sum(t, y, i) % 2 == Sum(RowTimes(t, m, |x|), x, i) % 2
  {
    var last := t[|t| - 1];
    RowTimesSum(t, m, x, i);
    SumLast(t, y, i);
    SameParity(Sum(t, y, i), Sum(t[..|t| - 1], y, i), Picked(last, y, i),
               Sum(RowTimes(t, m, |x|), x, i), Sum(RowTimes(t[..|t| - 1], m, |x|), x, i),
               Sum(Turned(last.shift, m[last.col], |x|), x, i));
  }

  lemma SumLast(t: TermRow, y: Word, i: nat)
    requires t != [] && Blocks(y, |y|) && Within(t, |y|) && i < Z
    ensures Sum(t, y, i) == Sum(t[..|t| - 1], y, i) + Picked(t[|t| - 1], y, i)
  {
  }

  lemma SameParity(total: int, a: int, c: int, total': int, b: int, d: int)
    requires total == a + c && total' == b + d && a % 2 == b % 2 && c % 2 == d % 2
    ensures total % 2 == total' % 2
  {
  }

  /** Multiplying twice is multiplying by the product, over GF(2). */
  lemma {:induction false} ProductActs(t: TermRow, m: Matrix, x: Word, i: nat)
    requires Blocks(x, |x|) && MatrixOk(m, |x|) && Within(t, |m|) && i < Z
    ensures Sum(t, Times(m, x), i) % 2 == Sum(RowTimes(t, m, |x|), x, i) % 2
  {
    if t != [] {
      ProductActs(t[..|t| - 1], m, x, i);
      LastActs(t[|t| - 1], m, x, i);
      ProductStep(t, m, x, Times(m, x), i);
    }
  }

  /** The inverse undoes the matrix on every vector of bits. */
  lemma InverseUndoes(a: Matrix, b: Matrix, x: Word, r: nat, i: nat)
    requires InverseOf(b, a) && Blocks(x, |a|) && r < |a| && i < Z
    ensures Sum(a[r], Times(b, x), i) % 2 == x[r][i] % 2
  {
    var p, unit := RowTimes(a[r], b, |a|), Term(r, 0);
    assert RowIsUnit(p, unit);
    ProductActs(a[r], b, x, i);
    EvenRowVanishes(p + [unit], x, i);
    SumAppend(p, [unit], x, i);
    assert Sum([unit], x, i) == Sum([], x, i) + x[r][i];
    ParitiesCancel(Sum(p, x, i), x[r][i]);
  }
}
