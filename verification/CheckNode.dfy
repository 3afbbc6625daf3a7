/**
 The check-node rule of the normalized min-sum decoder.

 The textbook rule is stated over the set of neighbours of a check: it names no edge order.
 The kernel's rule is the two-minima recurrence that scans the edges once.
 */
module CheckNode {
  import opened Arith

  /** The extrinsic value each neighbouring column offers to one check equation. */
  type Offers = map<nat, real>

  /** A negative value stands for bit 1; zero counts as positive. */
  function Negatives(v: Offers): set<nat> {
    set c | c in v && v[c] < 0.0
  }

  ghost predicate IsLeastOther(v: Offers, c: nat, m: real) {
    && (exists d :: d in v && d != c && Abs(v[d]) == m)
    && forall d :: d in v && d != c ==> m <= Abs(v[d])
  }

  lemma LeastOtherExists(v: Offers, c: nat)
    requires exists d :: d in v && d != c
    ensures exists m :: IsLeastOther(v, c, m)
    decreases |v|
  {
    var d :| d in v && d != c;
    var rest := v - {d};
    assert |rest.Keys| < |v.Keys| by { assert rest.Keys == v.Keys - {d}; }
    if exists e :: e in rest && e != c {
      LeastOtherExists(rest, c);
      var m :| IsLeastOther(rest, c, m);
      var w :| w in rest && w != c && Abs(rest[w]) == m;
      var least := if Abs(v[d]) < m then d else w;
      forall e | e in v && e != c
        ensures Abs(v[least]) <= Abs(v[e])
      {
        assert e == d || (e in rest && rest[e] == v[e]);
      }
      assert IsLeastOther(v, c, Abs(v[least]));
    } else {
      forall e | e in v && e != c
        ensures e == d
      {
        assert e != d ==> e in rest;
      }
      assert IsLeastOther(v, c, Abs(v[d]));
    }
  }

  ghost function LeastOther(v: Offers, c: nat): (m: real)
    requires exists d :: d in v && d != c
    ensures IsLeastOther(v, c, m)
  {
    LeastOtherExists(v, c);
    var m :| IsLeastOther(v, c, m);
    m
  }

  lemma LeastOtherUnique(v: Offers, c: nat, m: real)
    requires IsLeastOther(v, c, m)
    ensures (exists d :: d in v && d != c) && LeastOther(v, c) == m
  {
    var d :| d in v && d != c && Abs(v[d]) == m;
    assert d in v && d != c;
    var e :| e in v && e != c && Abs(v[e]) == LeastOther(v, c);
  }

  /**
   Textbook message from a check to column c: 0.75 times the least magnitude among the other
   columns, negative when an odd number of the other columns is negative.
   */
  ghost function Message(v: Offers, c: nat): real
    requires exists d :: d in v && d != c
  {
    var m := 0.75 * LeastOther(v, c);
    if |Negatives(v) - {c}| % 2 == 1 then -m else m
  }

  /** The message's size is three quarters of an offer of another column and of none smaller, and its sign is negative
      exactly when the negative offers of the others are odd in number and none of them is zero. */
  lemma MessageIsScaledLeast(v: Offers, c: nat)
    requires exists d :: d in v && d != c
    ensures exists d :: d in v && d != c && Abs(Message(v, c)) == 0.75 * Abs(v[d])
    ensures forall d :: d in v && d != c ==> Abs(Message(v, c)) <= 0.75 * Abs(v[d])
    ensures Message(v, c) < 0.0
       <==> |set d | d in v && d != c && v[d] < 0.0| % 2 == 1 && forall d :: d in v && d != c ==> v[d] != 0.0
  {
    var m := LeastOther(v, c);
    assert (set d | d in v && d != c && v[d] < 0.0) == Negatives(v) - {c};
    var d :| d in v && d != c && Abs(v[d]) == m;
    assert Abs(Message(v, c)) == 0.75 * Abs(v[d]);
    assert m == 0.0 <==> exists e :: e in v && e != c && v[e] == 0.0;
  }

  // ---------- the kernel's scan over one check's edges ----------

  function Sgn(x: real): real {
    if x >= 0.0 then 1.0 else -1.0
  }

  function Lesser(x: real, y: real): real {
    if x <= y then x else y
  }

  function Greater(x: real, y: real): real {
    if x <= y then y else x
  }

  /** Registers after the first n edges. */
  datatype Scan = Scan(sign: real, min1: real, min2: real)

  function ScanStep(s: Scan, x: real): Scan {
    var min2 := Greater(Lesser(s.min2, Abs(x)), s.min1);
    Scan(s.sign * Sgn(x), Lesser(s.min1, Abs(x)), min2)
  }

  function ScanEdges(vals: seq<real>, n: nat): Scan
    requires 2 <= n <= |vals|
  {
    if n == 2 then
      Scan(Sgn(vals[0]) * Sgn(vals[1]),
           Lesser(Abs(vals[0]), Abs(vals[1])),
           Greater(Abs(vals[0]), Abs(vals[1])))
    else
      ScanStep(ScanEdges(vals, n - 1), vals[n - 1])
  }

  /** The smallest magnitude, or the second smallest for an edge that ties with the smallest. */
  function Selected(vals: seq<real>, k: nat): real
    requires 2 <= |vals| && k < |vals|
  {
    var s := ScanEdges(vals, |vals|);
    if Abs(vals[k]) == s.min1 then s.min2 else s.min1
  }

  function Product(x: real, y: real): real {
    x * y
  }

  function ScaledSign(vals: seq<real>, k: nat): real
    requires 2 <= |vals| && k < |vals|
  {
    ScanEdges(vals, |vals|).sign * 0.75 * Sgn(vals[k])
  }

  /** The message written back for edge k: the sign register times the edge's own sign, times the
      selected minimum. */
  function KernelMessage(vals: seq<real>, k: nat): real
    requires 2 <= |vals| && k < |vals|
  {
    Product(ScaledSign(vals, k), Selected(vals, k))
  }

  /** Two different edges hold the two smallest magnitudes. */
  ghost predicate HoldsTwoLeast(vals: seq<real>, n: nat, p: nat, q: nat, min1: real, min2: real)
    requires n <= |vals|
  {
    && p < n && q < n && p != q
    && Abs(vals[p]) == min1 && Abs(vals[q]) == min2 && min1 <= min2
    && forall j :: 0 <= j < n && j != p ==> min2 <= Abs(vals[j])
  }

  lemma {:induction false} ScanFindsTwoLeast(vals: seq<real>, n: nat) returns (p: nat, q: nat)
    requires 2 <= n <= |vals|
    ensures var s := ScanEdges(vals, n); HoldsTwoLeast(vals, n, p, q, s.min1, s.min2)
  {
    if n == 2 {
      p, q := if Abs(vals[0]) <= Abs(vals[1]) then 0 else 1, if Abs(vals[0]) <= Abs(vals[1]) then 1 else 0;
    } else {
      var s := ScanEdges(vals, n - 1);
      p, q := ScanFindsTwoLeast(vals, n - 1);
      var a := Abs(vals[n - 1]);
      if a < s.min1 {
        p, q := n - 1, p;
      } else if a < s.min2 {
        q := n - 1;
      }
    }
  }

  ghost predicate Distinct(cols: seq<nat>) {
    forall j, k :: 0 <= j < k < |cols| ==> cols[j] != cols[k]
  }

  function NegativeCount(vals: seq<real>, n: nat): nat
    requires n <= |vals|
  {
    if n == 0 then 0 else NegativeCount(vals, n - 1) + if vals[n - 1] < 0.0 then 1 else 0
  }

  lemma {:induction false} ScanSignIsParity(vals: seq<real>, n: nat)
    requires 2 <= n <= |vals|
    ensures ScanEdges(vals, n).sign == if NegativeCount(vals, n) % 2 == 1 then -1.0 else 1.0
  {
    if n == 2 {
      assert NegativeCount(vals, 1) == if vals[0] < 0.0 then 1 else 0;
    } else {
      ScanSignIsParity(vals, n - 1);
    }
  }

  /** The columns among the first n edges that offer a negative value. */
  ghost function NegativePrefix(cols: seq<nat>, vals: seq<real>, n: nat): (s: set<nat>)
    requires n <= |vals| && |vals| == |cols| && Distinct(cols)
    ensures forall k :: 0 <= k < n ==> (cols[k] in s <==> vals[k] < 0.0)
    ensures forall k :: n <= k < |cols| ==> cols[k] !in s
    ensures forall c :: c in s ==> c in cols
    ensures |s| == NegativeCount(vals, n)
  {
    if n == 0 then {}
    else
      var s := NegativePrefix(cols, vals, n - 1);
      if vals[n - 1] < 0.0 then s + {cols[n - 1]} else s
  }

  /** Edge k of the scan carries column cols[k] and value vals[k]. */
  ghost predicate Lists(v: Offers, cols: seq<nat>, vals: seq<real>) {
    && |cols| == |vals| && Distinct(cols)
    && (forall k :: 0 <= k < |cols| ==> cols[k] in v && v[cols[k]] == vals[k])
    && (forall c :: c in v ==> c in cols)
  }

  lemma SelectedMinimumIsLeastOther(v: Offers, cols: seq<nat>, vals: seq<real>, k: nat)
    requires Lists(v, cols, vals) && 2 <= |vals| && k < |vals|
    ensures IsLeastOther(v, cols[k], Selected(vals, k))
  {
    var p, q := ScanFindsTwoLeast(vals, |vals|);
    var m := Selected(vals, k);
    var w := if k == p then q else p;
    assert Abs(v[cols[w]]) == m && cols[w] in v && cols[w] != cols[k];
    forall d | d in v && d != cols[k]
      ensures m <= Abs(v[d])
    {
      var j :| 0 <= j < |cols| && cols[j] == d;
      assert vals[j] == v[d];
    }
  }

  lemma NegativePrefixIsNegatives(v: Offers, cols: seq<nat>, vals: seq<real>)
    requires Lists(v, cols, vals)
    ensures NegativePrefix(cols, vals, |vals|) == Negatives(v)
  {
    var neg := NegativePrefix(cols, vals, |vals|);
    forall c: nat
      ensures c in neg <==> c in Negatives(v)
    {
      if c in v || c in neg {
        assert c in cols;
        var k :| 0 <= k < |cols| && cols[k] == c;
      }
    }
  }

  /**
   The kernel's message equals the textbook message for every degree of at least two, with ties at
   the minimum, and for every order in which the edges are listed.
   */
  lemma KernelMessageIsTextbook(v: Offers, cols: seq<nat>, vals: seq<real>, k: nat)
    requires Lists(v, cols, vals) && 2 <= |vals| && k < |vals|
    ensures exists d :: d in v && d != cols[k]
    ensures KernelMessage(vals, k) == Message(v, cols[k])
  {
    SelectedMinimumIsLeastOther(v, cols, vals, k);
    LeastOtherUnique(v, cols[k], Selected(vals, k));
    KernelMessageSign(vals, k);
    OtherNegativesParity(v, cols, vals, k);
  }

  lemma KernelMessageSign(vals: seq<real>, k: nat)
    requires 2 <= |vals| && k < |vals|
    ensures var others := NegativeCount(vals, |vals|) - if vals[k] < 0.0 then 1 else 0;
            KernelMessage(vals, k) == if others % 2 == 1 then -(0.75 * Selected(vals, k)) else 0.75 * Selected(vals, k)
  {
    ScanSignIsParity(vals, |vals|);
    SignedScale(ScanEdges(vals, |vals|).sign, Sgn(vals[k]), Selected(vals, k));
  }

  lemma SignedScale(a: real, b: real, m: real)
    requires (a == 1.0 || a == -1.0) && (b == 1.0 || b == -1.0)
    ensures a * 0.75 * b * m == if a == b then 0.75 * m else -(0.75 * m)
  {
  }

  /** Removing edge k's own sign from the parity of all signs leaves the parity of the others. */
  lemma OtherNegativesParity(v: Offers, cols: seq<nat>, vals: seq<real>, k: nat)
    requires Lists(v, cols, vals) && k < |vals|
    ensures |Negatives(v) - {cols[k]}| == NegativeCount(vals, |vals|) - if vals[k] < 0.0 then 1 else 0
  {
    NegativePrefixIsNegatives(v, cols, vals);
    var neg := NegativePrefix(cols, vals, |vals|);
    if vals[k] < 0.0 {
      assert cols[k] in neg;
    } else {
      assert neg - {cols[k]} == neg;
    }
  }
}
