/** The circular buffer: reading it round and round, and adding back what was read. */
module CircularBuffer {
  import opened Arith
  import opened RateProfile

  /** Buffer position of the t-th transmitted bit. */
  function Position(k0: nat, t: nat): (p: nat)
    ensures p < N_CB_BUF
  {
    (k0 + t) % N_CB_BUF
  }

  /** The transmitted bits. */
  function Match(code: seq<int>, k0: nat, n: nat): (s: seq<int>)
    requires |code| == N_CB_BUF
    ensures |s| == n && forall t: nat :: t < n ==> s[t] == code[Position(k0, t)]
  {
    seq(n, t requires 0 <= t < n => code[Position(k0, t)])
  }

  /** Sum of the first n received values that belong to buffer position k. */
  function Fold(vals: seq<int>, k0: nat, k: nat, n: nat): int
    requires n <= |vals|
  {
    if n == 0 then 0
    else Fold(vals, k0, k, n - 1) + if Position(k0, n - 1) == k then vals[n - 1] else 0
  }

  /** How many of the first n transmitted bits come from buffer position k. */
  function Visits(k0: nat, k: nat, n: nat): nat {
    if n == 0 then 0
    else Visits(k0, k, n - 1) + if Position(k0, n - 1) == k then 1 else 0
  }

  /** Steps until position k is read next. */
  function Distance(k0: nat, k: nat, n: nat): (d: nat)
    requires k < N_CB_BUF
    ensures d < N_CB_BUF && (d == 0 <==> Position(k0, n) == k)
  {
    var p := Position(k0, n);
    if p <= k then k - p else k + N_CB_BUF - p
  }

  lemma PositionStep(k0: nat, n: nat)
    ensures Position(k0, n + 1) == if Position(k0, n) + 1 < N_CB_BUF then Position(k0, n) + 1 else 0
  {
  }

  /** One visit per turn of the buffer, exactly. */
  lemma {:induction false} VisitsExactly(k0: nat, k: nat, n: nat)
    requires k < N_CB_BUF
    ensures N_CB_BUF * Visits(k0, k, n) == n - Distance(k0, k, 0) + Distance(k0, k, n)
  {
    if n > 0 {
      VisitsExactly(k0, k, n - 1);
      PositionStep(k0, n - 1);
    }
  }

  /** Up to four turns of the buffer visit every position at most four times. */
  lemma AtMostFourVisits(k0: nat, k: nat, n: nat)
    requires k < N_CB_BUF && n <= 4 * N_CB_BUF
    ensures Visits(k0, k, n) <= 4
    ensures n >= N_CB_BUF ==> Visits(k0, k, n) >= 1
  {
    VisitsExactly(k0, k, n);
  }

  ghost predicate Bounded(vals: seq<int>, b: int) {
    forall t :: 0 <= t < |vals| ==> -b <= vals[t] <= b
  }

  lemma {:induction false} FoldBounded(vals: seq<int>, k0: nat, k: nat, n: nat)
    requires n <= |vals| && Bounded(vals, LLR_CLIP)
    ensures -LLR_CLIP * Visits(k0, k, n) <= Fold(vals, k0, k, n) <= LLR_CLIP * Visits(k0, k, n)
  {
    if n > 0 {
      FoldBounded(vals, k0, k, n - 1);
    }
  }

  /** A 16-bit accumulator never overflows, at any point of the accumulation. */
  lemma AccumulatorFits(vals: seq<int>, k0: nat, k: nat, n: nat)
    requires k < N_CB_BUF && n <= |vals| && n <= 4 * N_CB_BUF && Bounded(vals, LLR_CLIP)
    ensures -20480 <= Fold(vals, k0, k, n) <= 20480
  {
    FoldBounded(vals, k0, k, n);
    AtMostFourVisits(k0, k, n);
  }

  /** A run of values that does not wrap adds to consecutive positions. */
  lemma {:induction false} FoldRun(vals: seq<int>, k0: nat, k: nat, n: nat, count: nat)
    requires n + count <= |vals| && Position(k0, n) + count <= N_CB_BUF
    ensures Fold(vals, k0, k, n + count) == Fold(vals, k0, k, n) +
      if Position(k0, n) <= k < Position(k0, n) + count then vals[n + (k - Position(k0, n))] else 0
  {
    if count > 0 {
      FoldRun(vals, k0, k, n, count - 1);
      RunPosition(k0, n, count - 1);
    }
  }

  lemma {:induction false} RunPosition(k0: nat, n: nat, e: nat)
    requires Position(k0, n) + e < N_CB_BUF
    ensures Position(k0, n + e) == Position(k0, n) + e
  {
    if e > 0 {
      RunPosition(k0, n, e - 1);
      PositionStep(k0, n + e - 1);
    }
  }

  // ---------- matching and folding are adjoint ----------

  function Dot(a: seq<int>, b: seq<int>, n: nat): int
    requires n <= |a| && n <= |b|
  {
    if n == 0 then 0 else Dot(a, b, n - 1) + a[n - 1] * b[n - 1]
  }

  /** The buffer after n values. */
  function Folded(vals: seq<int>, k0: nat, n: nat): (s: seq<int>)
    requires n <= |vals|
    ensures |s| == N_CB_BUF && forall k: nat :: k < N_CB_BUF ==> s[k] == Fold(vals, k0, k, n)
  {
    seq(N_CB_BUF, k requires 0 <= k < N_CB_BUF => Fold(vals, k0, k, n))
  }

  lemma {:induction false} DotOnePlace(a: seq<int>, b: seq<int>, b': seq<int>, m: nat, p: nat, v: int)
    requires |b| == |b'| && m <= |a| && m <= |b| && p < |a|
    requires forall k: nat :: k < |b| ==> b'[k] == b[k] + if k == p then v else 0
    ensures Dot(a, b', m) == Dot(a, b, m) + if p < m then a[p] * v else 0
  {
    if m > 0 {
      DotOnePlace(a, b, b', m - 1, p, v);
      Product(a[m - 1], b[m - 1], v);
    }
  }

  lemma Product(a: int, b: int, c: int)
    ensures a * (b + c) == a * b + a * c
  {
  }

  lemma {:induction false} DotZero(a: seq<int>, b: seq<int>, m: nat)
    requires m <= |a| && m <= |b| && forall k: nat :: k < m ==> b[k] == 0
    ensures Dot(a, b, m) == 0
  {
    if m > 0 {
      DotZero(a, b, m - 1);
    }
  }

  /** Correlating the transmitted bits with the received values is correlating the buffer with the
      folded values: rate matching and de-matching are adjoint. */
  lemma {:induction false} MatchFoldAdjoint(code: seq<int>, vals: seq<int>, k0: nat, n: nat, total: nat)
    requires |code| == N_CB_BUF && n <= total && n <= |vals|
    ensures Dot(Match(code, k0, total), vals, n) == Dot(code, Folded(vals, k0, n), N_CB_BUF)
  {
    if n == 0 {
      DotZero(code, Folded(vals, k0, 0), N_CB_BUF);
    } else {
      MatchFoldAdjoint(code, vals, k0, n - 1, total);
      DotOnePlace(code, Folded(vals, k0, n - 1), Folded(vals, k0, n), N_CB_BUF, Position(k0, n - 1), vals[n - 1]);
    }
  }

  // ---------- signs survive ----------

  /** x seen from the side of the transmitted bit. */
  function Side(bit: int, x: int): int {
    if bit == 1 then -x else x
  }

  /** Values that agree with the transmitted bits fold to values that agree with the buffer. */
  lemma {:induction false} FoldAgrees(code: seq<int>, vals: seq<int>, k0: nat, k: nat, n: nat)
    requires |code| == N_CB_BUF && k < N_CB_BUF && n <= |vals|
    requires forall t: nat :: t < n ==> Side(code[Position(k0, t)], vals[t]) > 0
    ensures Side(code[k], Fold(vals, k0, k, n)) >= Visits(k0, k, n)
  {
    if n > 0 {
      FoldAgrees(code, vals, k0, k, n - 1);
    }
  }
}
