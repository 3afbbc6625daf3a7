/** Length-31 Gold sequences: the recurrences, the 31-cell ring generator and the array forms. */
module Gold {
  import opened Bits

  /** Discarded head of both registers. */
  const N_C: nat := 1600

  function Xor(a: bool, b: bool): bool {
    a != b
  }

  /** First register: a single one at the start. */
  function X1(n: nat): bool {
    if n < 31 then n == 0 else Xor(X1(n - 28), X1(n - 31))
  }

  /** A register's 31 start bits. */
  type Start = s: seq<bool> | |s| == 31 witness seq(31, _ => false)

  /** Second register from its start bits. */
  function X2(start: Start, n: nat): bool {
    if n < 31 then start[n]
    else Xor(Xor(X2(start, n - 28), X2(start, n - 29)), Xor(X2(start, n - 30), X2(start, n - 31)))
  }

  function StartOf(c: nat): (s: Start)
    ensures forall i :: 0 <= i < 31 ==> s[i] == BitAt(c, i)
  {
    seq(31, i requires 0 <= i < 31 => BitAt(c, i))
  }

  /** Sequence element k for initial value c. */
  function Element(c: nat, k: nat): bool {
    Xor(X1(k + N_C), X2(StartOf(c), k + N_C))
  }

  /** The registers of section 5.2.1 of TS 38.211: the first starts with a one and thirty zeros, the second with the
      bits of the initial value; then each element is the sum modulo two of two and of four earlier ones. */
  lemma RegistersAreStandard(c: nat, n: nat)
    ensures X1(0) && (1 <= n <= 30 ==> !X1(n))
    ensures n <= 30 ==> (X2(StartOf(c), n) <==> c / Pow2(n) % 2 == 1)
    ensures X1(n + 31) <==> X1(n + 3) != X1(n)
    ensures X2(StartOf(c), n + 31) <==>
            ((X2(StartOf(c), n + 3) != X2(StartOf(c), n + 2)) != (X2(StartOf(c), n + 1) != X2(StartOf(c), n)))
  {
    BitIsQuotient(c, n);
  }

  // ---------- the array forms ----------

  ghost predicate FirstUpTo(x: seq<bool>, n: nat) {
    n <= |x| && forall i: nat :: i < n ==> x[i] == X1(i)
  }

  ghost predicate SecondUpTo(x: seq<bool>, start: Start, n: nat) {
    n <= |x| && forall i: nat :: i < n ==> x[i] == X2(start, i)
  }

  /** Run the first register over an array. */
  method FillFirst(total: nat) returns (x1: array<bool>)
    ensures fresh(x1) && x1.Length == total + 31 && FirstUpTo(x1[..], total + 31)
  {
    x1 := new bool[total + 31](i => i == 0);
    for n := 0 to total
      invariant FirstUpTo(x1[..], n + 31)
    {
      x1[n + 31] := Xor(x1[n + 3], x1[n]);
    }
  }

  /** Run the second register over an array. */
  method FillSecond(start: Start, total: nat) returns (x2: array<bool>)
    ensures fresh(x2) && x2.Length == total + 31 && SecondUpTo(x2[..], start, total + 31)
  {
    x2 := new bool[total + 31](i => 0 <= i < 31 && start[i]);
    for n := 0 to total
      invariant SecondUpTo(x2[..], start, n + 31)
    {
      x2[n + 31] := Xor(Xor(x2[n + 3], x2[n + 2]), Xor(x2[n + 1], x2[n]));
    }
  }

  /** The array recurrence used on both sides of the link. */
  method GoldArray(c: nat, length: nat) returns (s: seq<bool>)
    ensures |s| == length && forall k: nat :: k < length ==> s[k] == Element(c, k)
    ensures forall k: nat :: k < length ==> s[k] == (X1(k + 1600) != X2(StartOf(c), k + 1600))
  {
    var total := length + N_C;
    var x1 := FillFirst(total);
    var x2 := FillSecond(StartOf(c), total);
    s := seq(length, k requires 0 <= k < length && x1.Length == x2.Length == length + N_C + 31 reads x1, x2 =>
      Xor(x1[k + N_C], x2[k + N_C]));
    ghost var firsts, seconds := x1[..], x2[..];
    forall k: nat | k < length
      ensures s[k] == Element(c, k)
    {
      assert firsts[k + N_C] == X1(k + N_C) && seconds[k + N_C] == X2(StartOf(c), k + N_C);
    }
  }

  // ---------- the ring ----------

  /** The cell that holds the element i places after the one at position. */
  function CellOf(position: nat, i: nat): (cell: nat)
    requires position < 31 && i < 31
    ensures cell < 31 && cell == (position + i) % 31
  {
    if position + i < 31 then position + i else position + i - 31
  }

  /** Both registers hold elements n .. n + 30, oldest at position. */
  ghost predicate RingHolds(x1: seq<bool>, x2: seq<bool>, position: nat, start: Start, n: nat) {
    && |x1| == |x2| == 31 && position < 31
    && forall i: nat :: i < 31 ==> HoldsAt(x1, x2, position, start, n, i)
  }

  ghost predicate HoldsAt(x1: seq<bool>, x2: seq<bool>, position: nat, start: Start, n: nat, i: nat)
    requires |x1| == |x2| == 31 && position < 31 && i < 31
  {
    x1[CellOf(position, i)] == X1(n + i) && x2[CellOf(position, i)] == X2(start, n + i)
  }

  /** Overwriting the oldest element with the next one advances the ring by one. */
  lemma RingAdvances(x1: seq<bool>, x2: seq<bool>, y1: seq<bool>, y2: seq<bool>, position: nat, next: nat,
                     start: Start, n: nat)
    requires RingHolds(x1, x2, position, start, n) && next == (position + 1) % 31
    requires y1 == x1[position := Xor(x1[CellOf(position, 3)], x1[position])]
    requires y2 == x2[position := Xor(Xor(x2[CellOf(position, 3)], x2[CellOf(position, 2)]),
                                      Xor(x2[CellOf(position, 1)], x2[position]))]
    ensures RingHolds(y1, y2, next, start, n + 1)
  {
    assert HoldsAt(x1, x2, position, start, n, 0) && HoldsAt(x1, x2, position, start, n, 1);
    assert HoldsAt(x1, x2, position, start, n, 2) && HoldsAt(x1, x2, position, start, n, 3);
    var n' := n + 1;
    forall i: nat | i < 31
      ensures HoldsAt(y1, y2, next, start, n', i)
    {
      if i < 30 {
        assert HoldsAt(x1, x2, position, start, n, i + 1);
        assert CellOf(next, i) == CellOf(position, i + 1) != position;
      } else {
        assert CellOf(next, 30) == position;
        assert n' + 30 == n + 31;
      }
    }
  }

  class GoldGenerator {
    const x1: array<bool>
    const x2: array<bool>
    var position: nat
    ghost const start: Start
    /** Steps taken since the registers were loaded. */
    ghost var steps: nat

    ghost predicate Valid()
      reads this, x1, x2
    {
      x1 != x2 && RingHolds(x1[..], x2[..], position, start, steps)
    }

    /** Calls answered so far. */
    ghost function Calls(): int
      reads this
    {
      steps - N_C
    }

    /** Load the registers and discard the head. */
    constructor (c: nat)
      ensures Valid() && Calls() == 0 && start == StartOf(c) && fresh(x1) && fresh(x2)
      ensures steps == 1600
    {
      var first, second := new bool[31](i => i == 0), new bool[31](i requires 0 <= i < 31 => BitAt(c, i));
      x1, x2 := first, second;
      start := StartOf(c);
      position := 0;
      steps := 0;
      new;
      forall i: nat | i < 31
        ensures HoldsAt(x1[..], x2[..], 0, start, 0, i)
      {
      }
      for n := 0 to N_C
        invariant Valid() && steps == n
      {
        Step();
      }
    }

    method Step()
      requires Valid()
      modifies this, x1, x2
      ensures Valid() && steps == old(steps) + 1
    {
      ghost var was1, was2 := x1[..], x2[..];
      var p0, p1, p2, p3 := position, (position + 1) % 31, (position + 2) % 31, (position + 3) % 31;
      var next1 := Xor(x1[p3], x1[p0]);
      var next2 := Xor(Xor(x2[p3], x2[p2]), Xor(x2[p1], x2[p0]));
      assert p1 == CellOf(position, 1) && p2 == CellOf(position, 2) && p3 == CellOf(position, 3);
      x1[p0] := next1;
      x2[p0] := next2;
      RingAdvances(was1, was2, x1[..], x2[..], position, (position + 1) % 31, start, steps);
      position := (position + 1) % 31;
      steps := steps + 1;
    }

    /** The k-th call returns element k of the sequence. */
    method Next(ghost c: nat) returns (value: bool)
      requires Valid() && Calls() >= 0 && start == StartOf(c)
      modifies this, x1, x2
      ensures Valid() && Calls() == old(Calls()) + 1
      ensures value == Element(c, old(Calls()))
      ensures steps == old(steps) + 1 && value == (X1(old(steps)) != X2(StartOf(c), old(steps)))
    {
      assert HoldsAt(x1[..], x2[..], position, start, steps, 0);
      value := Xor(x1[position], x2[position]);
      Step();
    }
  }
}
