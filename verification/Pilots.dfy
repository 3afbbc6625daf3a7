/** What a pilot table means: which subcarriers each layer is observed on (section 6.4.1.1.3 of TS 38.211). */
module Pilots {
  import opened Bits
  import opened PuschTypes

  const N_SYMBOLS: nat := 14
  const N_DMRS: nat := 2
  const N_PILOT_PAD: nat := 832
  const COUNT_PAD: nat := 16
  const TABLE: nat := 6656

  // ---------- supported configurations ----------

  ghost predicate FieldsOk(c: Config, rx: nat) {
    && c.abi == 1 && c.size >= 96 && 1 <= c.layers <= 4 && c.layers <= c.txPorts
    && c.rxAntennas == rx && c.symbols == 14 && c.used == 1596 && c.padded == 1664
    && c.dmrsType == 1 && c.precoding == 0 && ReservedIsZero(c)
  }

  /** Exactly two of the fourteen symbols carry pilots. */
  ghost predicate NamesTwo(mask: nat) {
    exists a: nat, b: nat :: TwoBits(mask, a, b, 14)
  }

  /** The layers' ports are the four single-symbol ports of type 1, no two alike. */
  ghost predicate PortsDistinct(c: Config) {
    && c.layers <= |c.ports|
    && (forall i :: 0 <= i < c.layers ==> 1000 <= c.ports[i] <= 1003)
    && forall i, j :: 0 <= i < j < c.layers ==> c.ports[i] != c.ports[j]
  }

  ghost predicate Supported(c: Config, rx: nat) {
    FieldsOk(c, rx) && NamesTwo(c.mask) && PortsDistinct(c)
  }

  /** Counting bits and looking above the fourteenth decides whether two symbols are named. */
  lemma MaskTest(mask: nat)
    ensures NamesTwo(mask) <==> Popcount(mask) == 2 && mask < 0x4000
  {
    assert Pow2(14) == 0x4000;
    if mask < 0x4000 {
      PopcountTwo(mask, 14);
    } else if NamesTwo(mask) {
      var a: nat, b: nat :| TwoBits(mask, a, b, 14);
      PowersBelow(a, b, 14);
    }
  }

  /** What a supported configuration is: up to four layers on the carrier of 133 resource blocks, two of the fourteen
      symbols in the mask, and one of the four ports 1000 to 1003 for each layer. */
  lemma SupportedCarrier(c: Config, rx: nat)
    ensures Supported(c, rx)
       <==> && c.abi == 1 && c.size >= 96 && 1 <= c.layers <= 4 && c.layers <= c.txPorts && c.rxAntennas == rx
            && c.symbols == 14 && c.used == 12 * 133 && c.padded == 13 * 128 && c.dmrsType == 1 && c.precoding == 0
            && (forall i :: 0 <= i < |c.reserved| ==> c.reserved[i] == 0)
            && Popcount(c.mask) == 2 && c.mask < 0x4000 && c.layers <= |c.ports|
            && (forall i :: 0 <= i < c.layers ==> c.ports[i] in {1000, 1001, 1002, 1003})
            && forall i, j :: 0 <= i < c.layers && 0 <= j < c.layers && i != j ==> c.ports[i] != c.ports[j]
  {
    MaskTest(c.mask);
  }

  lemma {:induction false} PowersBelow(a: nat, b: nat, n: nat)
    requires a < b < n
    ensures Pow2(a) + Pow2(b) < Pow2(n)
    decreases n
  {
    PowerGrows(a, b);
    PowerGrows(b, n);
  }

  lemma {:induction false} PowerGrows(a: nat, b: nat)
    requires a < b
    ensures 2 * Pow2(a) <= Pow2(b)
  {
    if a < b - 1 {
      PowerGrows(a, b - 1);
    }
  }

  // ---------- groups ----------

  /** Code-division group of a port: ports 1000 and 1001 share one comb, 1002 and 1003 the other. */
  function Group(port: nat): nat {
    if port < 1002 then 0 else 1
  }

  /** Another layer is on the same comb. */
  ghost predicate Paired(c: Config, layer: nat)
    requires layer < c.layers <= |c.ports|
  {
    exists peer: nat :: peer < c.layers && peer != layer && Group(c.ports[peer]) == Group(c.ports[layer])
  }

  /** Entries among the first m that equal x. */
  function CountEqual(s: seq<nat>, x: nat, m: nat): nat
    requires m <= |s|
  {
    if m == 0 then 0 else CountEqual(s, x, m - 1) + if s[m - 1] == x then 1 else 0
  }

  /** Ports among the first m whose group is x. */
  ghost function PortsIn(ports: seq<nat>, x: nat, m: nat): set<nat>
    requires m <= |ports|
  {
    if m == 0 then {} else PortsIn(ports, x, m - 1) + if Group(ports[m - 1]) == x then {ports[m - 1]} else {}
  }

  /** Port number k is one of them. */
  ghost predicate PortAt(ports: seq<nat>, x: nat, m: nat, p: nat, k: nat) {
    k < m <= |ports| && ports[k] == p && Group(p) == x
  }

  lemma {:induction false} PortsInAre(ports: seq<nat>, x: nat, m: nat, p: nat)
    requires m <= |ports|
    ensures p in PortsIn(ports, x, m) <==> exists k: nat :: PortAt(ports, x, m, p, k)
  {
    if m > 0 {
      PortsInAre(ports, x, m - 1, p);
      if p in PortsIn(ports, x, m - 1) {
        var k: nat :| PortAt(ports, x, m - 1, p, k);
        assert PortAt(ports, x, m, p, k);
      } else if p in PortsIn(ports, x, m) {
        assert PortAt(ports, x, m, p, m - 1);
      }
      if k: nat :| PortAt(ports, x, m, p, k) {
        assert k < m - 1 ==> PortAt(ports, x, m - 1, p, k);
      }
    }
  }

  ghost predicate GroupsOf(c: Config, g: seq<nat>) {
    c.layers <= |c.ports| && |g| == c.layers && forall k :: 0 <= k < |g| ==> g[k] == Group(c.ports[k])
  }

  lemma NextPortIsNew(c: Config, x: nat, m: nat)
    requires m < c.layers && PortsDistinct(c)
    ensures c.ports[m] !in PortsIn(c.ports, x, m)
  {
    PortsInAre(c.ports, x, m, c.ports[m]);
  }

  lemma PortsGrow(c: Config, g: seq<nat>, x: nat, m: nat)
    requires PortsDistinct(c) && GroupsOf(c, g) && m < c.layers
    ensures |PortsIn(c.ports, x, m + 1)| == |PortsIn(c.ports, x, m)| + if g[m] == x then 1 else 0
  {
    var before := PortsIn(c.ports, x, m);
    NextPortIsNew(c, x, m);
    assert g[m] == Group(c.ports[m]);
    assert PortsIn(c.ports, x, m + 1) == before + if g[m] == x then {c.ports[m]} else {};
  }

  lemma {:induction false} CountIsPorts(c: Config, g: seq<nat>, x: nat, m: nat)
    requires PortsDistinct(c) && GroupsOf(c, g) && m <= c.layers
    ensures CountEqual(g, x, m) == |PortsIn(c.ports, x, m)|
  {
    if m > 0 {
      var n := m - 1;
      CountIsPorts(c, g, x, n);
      PortsGrow(c, g, x, n);
      assert CountEqual(g, x, m) == CountEqual(g, x, n) + if g[n] == x then 1 else 0;
    }
  }

  lemma SubsetSize(a: set<nat>, b: set<nat>)
    requires a <= b
    ensures |a| <= |b|
  {
    assert b == a + (b - a);
  }

  /** Distinct ports put one or two layers on a comb, never more, and two exactly when the layer is paired. */
  lemma SharingIsPairing(c: Config, g: seq<nat>, layer: nat)
    requires PortsDistinct(c) && GroupsOf(c, g) && layer < c.layers
    ensures CountEqual(g, g[layer], c.layers) == if Paired(c, layer) then 2 else 1
  {
    var x, own := g[layer], c.ports[layer];
    var on := PortsIn(c.ports, x, c.layers);
    CountIsPorts(c, g, x, c.layers);
    AtMostTwo(c, x);
    PortsInAre(c.ports, x, c.layers, own);
    assert PortAt(c.ports, x, c.layers, own, layer);
    if Paired(c, layer) {
      var peer: nat :| peer < c.layers && peer != layer && Group(c.ports[peer]) == Group(own);
      PortsInAre(c.ports, x, c.layers, c.ports[peer]);
      assert PortAt(c.ports, x, c.layers, c.ports[peer], peer);
      var two: set<nat> := {own, c.ports[peer]};
      assert own != c.ports[peer];
      SubsetSize(two, on);
    } else {
      forall p | p in on
        ensures p == own
      {
        PortsInAre(c.ports, x, c.layers, p);
        var k: nat :| PortAt(c.ports, x, c.layers, p, k);
        assert k == layer;
      }
      assert on == {own};
    }
  }

  lemma AtMostTwo(c: Config, x: nat)
    requires PortsDistinct(c)
    ensures |PortsIn(c.ports, x, c.layers)| <= 2
  {
    var on := PortsIn(c.ports, x, c.layers);
    var pair: set<nat> := {1000 + 2 * x, 1001 + 2 * x};
    forall p | p in on
      ensures p in pair
    {
      PortsInAre(c.ports, x, c.layers, p);
      var k: nat :| PortAt(c.ports, x, c.layers, p, k);
    }
    SubsetSize(on, pair);
  }

  // ---------- pilots ----------

  /** Is s a pilot subcarrier of the layer? Alone on a comb: every second one. Paired: one per pair, its first
      or second, since the orthogonal cover spreads over two. */
  ghost predicate PilotOf(c: Config, layer: nat, s: nat)
    requires layer < c.layers <= |c.ports|
  {
    s < 1596 && if Paired(c, layer) then s % 4 == 1 + Group(c.ports[layer]) else s % 2 == Group(c.ports[layer])
  }

  ghost predicate Increasing(row: seq<nat>) {
    forall p, p' :: 0 <= p < p' < |row| ==> row[p] < row[p']
  }

  /** The row lists the layer's pilots, all of them, once each, in order. */
  ghost predicate RowLists(c: Config, layer: nat, row: seq<nat>)
    requires layer < c.layers <= |c.ports|
  {
    Increasing(row) && forall s: nat :: s in row <==> PilotOf(c, layer, s)
  }

  /** A layer has one such row. */
  lemma {:induction false} RowUnique(c: Config, layer: nat, a: seq<nat>, b: seq<nat>)
    requires layer < c.layers <= |c.ports| && RowLists(c, layer, a) && RowLists(c, layer, b)
    ensures a == b
  {
    SortedUnique(a, b);
  }

  lemma WithoutLast(a: seq<nat>)
    requires a != [] && Increasing(a)
    ensures forall s: nat :: s in a[..|a| - 1] <==> s in a && s != a[|a| - 1]
  {
    var front, last := a[..|a| - 1], a[|a| - 1];
    assert a == front + [last];
    forall s: nat | s in front
      ensures s != last
    {
      var p :| 0 <= p < |front| && front[p] == s;
      assert a[p] < a[|a| - 1];
    }
  }

  lemma {:induction false} SortedUnique(a: seq<nat>, b: seq<nat>)
    requires Increasing(a) && Increasing(b) && forall s: nat :: s in a <==> s in b
    ensures a == b
    decreases |a|
  {
    if a == [] {
      assert forall p :: 0 <= p < |b| ==> b[p] in b;
    } else {
      var x := a[|a| - 1];
      assert x in b;
      var y := b[|b| - 1];
      assert y in a;
      assert x == y;
      var a', b' := a[..|a| - 1], b[..|b| - 1];
      WithoutLast(a);
      WithoutLast(b);
      forall s: nat
        ensures s in a' <==> s in b'
      {
        assert s in a <==> s in b;
      }
      SortedUnique(a', b');
      assert a == a' + [x] && b == b' + [x];
    }
  }

  /** An arithmetic progression that starts at the residue and runs to the end lists its residue class. */
  ghost predicate Progression(row: seq<nat>, first: nat, step: nat) {
    forall p :: 0 <= p < |row| ==> row[p] == first + step * p
  }

  lemma CombLists(c: Config, layer: nat, row: seq<nat>)
    requires layer < c.layers <= |c.ports| && !Paired(c, layer)
    requires |row| == 798 && Progression(row, Group(c.ports[layer]), 2)
    ensures RowLists(c, layer, row)
  {
    forall s: nat
      ensures s in row <==> PilotOf(c, layer, s)
    {
      if PilotOf(c, layer, s) {
        var p := s / 2;
        assert p < 798 && row[p] == s;
      }
    }
  }

  lemma PairLists(c: Config, layer: nat, row: seq<nat>)
    requires layer < c.layers <= |c.ports| && Paired(c, layer)
    requires |row| == 399 && Progression(row, 1 + Group(c.ports[layer]), 4)
    ensures RowLists(c, layer, row)
  {
    forall s: nat
      ensures s in row <==> PilotOf(c, layer, s)
    {
      if PilotOf(c, layer, s) {
        var p := s / 4;
        assert p < 399 && row[p] == s;
      }
    }
  }

  /** Conversely, a row that lists the pilots is that progression. */
  lemma ListedIsProgression(c: Config, layer: nat, row: seq<nat>)
    requires layer < c.layers <= |c.ports| && RowLists(c, layer, row)
    ensures var g := Group(c.ports[layer]);
            if Paired(c, layer) then |row| == 399 && Progression(row, 1 + g, 4)
            else |row| == 798 && Progression(row, g, 2)
  {
    var g := Group(c.ports[layer]);
    if Paired(c, layer) {
      var other := seq(399, p requires 0 <= p < 399 => 1 + g + 4 * p);
      PairLists(c, layer, other);
      RowUnique(c, layer, row, other);
    } else {
      var other := seq(798, p requires 0 <= p < 798 => g + 2 * p);
      CombLists(c, layer, other);
      RowUnique(c, layer, row, other);
    }
  }

  // ---------- tables ----------

  /** Counts and positions, one slot of N_PILOT_PAD positions per layer and pilot symbol. */
  ghost predicate TableShaped(count: seq<nat>, sc: seq<nat>) {
    && |count| == 16 && |sc| == 6656
    && (forall i :: 0 <= i < |count| ==> count[i] < 0x1_0000) && (forall i :: 0 <= i < |sc| ==> sc[i] < 0x1_0000)
  }

  function Base(slot: nat): nat {
    slot * N_PILOT_PAD
  }

  function LayerOf(slot: nat): nat {
    slot / 2
  }

  /** The positions a slot's count announces. */
  function Row(sc: seq<nat>, slot: nat, n: nat): (row: seq<nat>)
    requires slot < 8 && n <= N_PILOT_PAD && |sc| >= TABLE
    ensures |row| == n
  {
    sc[Base(slot)..Base(slot) + n]
  }

  ghost predicate SlotLists(c: Config, count: seq<nat>, sc: seq<nat>, slot: nat)
    requires |count| == COUNT_PAD && |sc| == TABLE && slot < 2 * c.layers && c.layers <= MAX_LAYERS
    requires c.layers <= |c.ports|
  {
    count[slot] <= 832 && RowLists(c, LayerOf(slot), Row(sc, slot, count[slot]))
  }

  ghost predicate SlotClear(count: seq<nat>, sc: seq<nat>, slot: nat)
    requires |count| == COUNT_PAD && |sc| == TABLE && slot < 8
  {
    forall i :: Base(slot) + count[slot] <= i < Base(slot) + N_PILOT_PAD ==> sc[i] == 0
  }

  /** Every used slot lists its layer's pilots. */
  ghost predicate Listed(c: Config, count: seq<nat>, sc: seq<nat>)
    requires TableShaped(count, sc) && c.layers <= MAX_LAYERS && c.layers <= |c.ports|
  {
    forall slot: nat :: slot < 2 * c.layers ==> SlotLists(c, count, sc, slot)
  }

  /** And holds nothing after them. */
  ghost predicate Padded(c: Config, count: seq<nat>, sc: seq<nat>)
    requires TableShaped(count, sc) && c.layers <= MAX_LAYERS
  {
    forall slot: nat :: slot < 2 * c.layers ==> SlotClear(count, sc, slot)
  }
}
