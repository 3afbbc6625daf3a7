/** The consumer of pilot tables: profile test, weight-model fingerprint and observation-model test. */
module ChannelEstLmmse {
  import opened Bits
  import opened Fnv
  import opened PuschTypes
  import opened Pilots

  const N_PILOT: nat := 798
  const N_OCC: nat := 399
  const WEIGHT_MODEL_MAGIC: nat := 0x43455731
  const WEIGHT_MODEL_SIZE: nat := 128
  const SLOTS: nat := 8

  // ---------- profile ----------

  method PortsAccepted(c: Config) returns (ok: bool)
    requires Widths(c) && c.layers <= MAX_LAYERS
    ensures ok <==> PortsDistinct(c)
  {
    var layer := 0;
    while layer < c.layers
      invariant layer <= c.layers
      invariant forall k :: 0 <= k < layer ==> 1000 <= c.ports[k] <= 1003
      invariant forall i, j :: 0 <= i < j < layer ==> c.ports[i] != c.ports[j]
    {
      var port := c.ports[layer];
      if port < 1000 || port > 1003 {
        return false;
      }
      var previous := 0;
      while previous < layer
        invariant previous <= layer && forall i :: 0 <= i < previous ==> c.ports[i] != port
      {
        if c.ports[previous] == port {
          return false;
        }
        previous := previous + 1;
      }
      layer := layer + 1;
    }
    ok := true;
  }

  /** The profile test: supported configurations pass with their own layout; a supported carrier with
      another layout is an invalid argument, whatever its ports. */
  method ValidateProfile(c: Config, layout: LayoutWords, rx: nat) returns (status: Status)
    requires Widths(c)
    ensures status == Ok <==> Supported(c, rx) && layout == CurrentLayout(c.layers)
    ensures status == InvalidArgument <==> FieldsOk(c, rx) && NamesTwo(c.mask) && layout != CurrentLayout(c.layers)
    ensures status in {Ok, InvalidArgument, UnsupportedProfile}
  {
    if c.abi != ABI_VERSION || c.size < CONFIG_SIZE || c.layers == 0 || c.layers > MAX_LAYERS ||
       c.txPorts < c.layers || c.rxAntennas != rx || c.symbols != 14 || c.used != 1596 || c.padded != 1664 ||
       c.dmrsType != 1 || c.precoding != 0 || !ReservedIsZero(c) {
      return UnsupportedProfile;
    }
    var d := Popcount16(c.mask);
    MaskTest(c.mask);
    if d != 2 {
      return UnsupportedProfile;
    }
    if c.mask / 0x4000 != 0 {
      return UnsupportedProfile;
    }
    var dataSymbols := 14 - 2;
    var dataRe := dataSymbols * 1596;
    var dataStride := (dataRe + 127) / 128 * 128;
    if layout.dmrsSymbols != 2 || layout.dataSymbols != dataSymbols || layout.dataRe != dataRe ||
       layout.dataStride != dataStride || layout.cwSymbols != c.layers * dataRe ||
       layout.cwStride != c.layers * dataStride {
      return InvalidArgument;
    }
    var ok := PortsAccepted(c);
    status := if ok then Ok else UnsupportedProfile;
  }

  // ---------- sharing and expected positions, in the operator's own arithmetic ----------

  /** (port - 1000u) / 2u in unsigned 32-bit arithmetic. */
  function Comb32(port: nat): nat {
    (port + 0x1_0000_0000 - 1000) % 0x1_0000_0000 / 2
  }

  function SharingUpTo(c: Config, layer: nat, m: nat): nat
    requires |c.ports| == 4 && layer < MAX_LAYERS && m <= MAX_LAYERS
  {
    if m == 0 then 0
    else SharingUpTo(c, layer, m - 1) + if Comb32(c.ports[m - 1]) == Comb32(c.ports[layer]) then 1 else 0
  }

  method SharingCount(c: Config, layer: nat) returns (sharing: nat)
    requires |c.ports| == 4 && layer < c.layers <= MAX_LAYERS
    ensures sharing == SharingUpTo(c, layer, c.layers)
    ensures PortsDistinct(c) ==> sharing == if Paired(c, layer) then 2 else 1
  {
    var comb := Comb32(c.ports[layer]);
    sharing := 0;
    for peer := 0 to c.layers
      invariant sharing == SharingUpTo(c, layer, peer)
    {
      sharing := sharing + if Comb32(c.ports[peer]) == comb then 1 else 0;
    }
    if PortsDistinct(c) {
      SharingIsPaired(c, layer);
    }
  }

  lemma {:induction false} SharingIsCount(c: Config, g: seq<nat>, layer: nat, m: nat)
    requires |c.ports| == 4 && PortsDistinct(c) && GroupsOf(c, g) && layer < c.layers && m <= c.layers <= MAX_LAYERS
    ensures SharingUpTo(c, layer, m) == CountEqual(g, g[layer], m)
  {
    if m > 0 {
      SharingIsCount(c, g, layer, m - 1);
    }
  }

  /** The operator's count agrees with pairing, which the producer derives in its own way. */
  lemma SharingIsPaired(c: Config, layer: nat)
    requires |c.ports| == 4 && PortsDistinct(c) && layer < c.layers <= MAX_LAYERS
    ensures SharingUpTo(c, layer, c.layers) == if Paired(c, layer) then 2 else 1
  {
    var g := seq(c.layers, k requires 0 <= k < c.layers => Group(c.ports[k]));
    SharingIsCount(c, g, layer, c.layers);
    SharingIsPairing(c, g, layer);
  }

  function ExpectedCount(sharing: nat): (n: nat)
    ensures n <= N_PILOT_PAD
  {
    if sharing == 2 then N_OCC else N_PILOT
  }

  /** Pilot p of a layer on the comb, with the 16-bit casts of the test. */
  function ExpectedSc(comb: nat, sharing: nat, p: nat): nat {
    if sharing == 2 then (comb % 0x1_0000 + 1 + 4 * p) % 0x1_0000 else (comb % 0x1_0000 + 2 * p) % 0x1_0000
  }

  ghost predicate ExpectedRow(row: seq<nat>, comb: nat, sharing: nat) {
    forall p: nat :: p < |row| ==> row[p] == ExpectedSc(comb, sharing, p)
  }

  // ---------- weight model ----------

  datatype WeightModel = WeightModel(magic: nat, abi: nat, size: nat, layers: nat, dmrsSymbols: nat, rank: nat,
                                     stride: nat, count: seq<nat>, hash: seq<nat>, reserved: seq<nat>)

  predicate HeaderOk(m: WeightModel, c: Config, rank: nat) {
    && m.magic == 0x43455731 && m.abi == 1 && m.size >= 128 && m.layers == c.layers
    && m.dmrsSymbols == 2 && m.rank == rank && m.stride == 832
    && forall i :: 0 <= i < |m.reserved| ==> m.reserved[i] == 0
  }

  /** Positions that slot s announces, read from the table and whatever lies behind it in memory. */
  function Announced(count: seq<nat>, memory: seq<nat>, s: nat): seq<nat>
    requires s < SLOTS <= |count| && Base(s) + count[s] <= |memory|
  {
    memory[Base(s)..Base(s) + count[s]]
  }

  ghost predicate Fingerprint(m: WeightModel, count: seq<nat>, memory: seq<nat>, s: nat) {
    && s < SLOTS <= |count| && |m.count| == |m.hash| == SLOTS && Base(s) + count[s] <= |memory|
    && m.count[s] == count[s] && m.hash[s] == Fnv1a(LittleEndian(Announced(count, memory, s)))
  }

  ghost predicate Modelled(m: WeightModel, c: Config, rank: nat, count: seq<nat>, memory: seq<nat>) {
    && HeaderOk(m, c, rank) && |m.count| == |m.hash| == 8
    && forall s: nat :: s < 2 * c.layers ==> Fingerprint(m, count, memory, s)
  }

  /**
   Fingerprint a pilot table. The counts are not compared with the storage, so a slot may announce
   entries behind the table: `behind` is what lies there.
   */
  method BuildWeightModel(c: Config, layout: LayoutWords, rx: nat, rank: nat, count: seq<nat>, sc: seq<nat>,
                          behind: seq<nat>)
    returns (status: Status, m: WeightModel)
    requires Widths(c) && TableShaped(count, sc) && |behind| >= 0x1_0000
    ensures status == Ok <==> Supported(c, rx) && layout == CurrentLayout(c.layers)
    ensures status == InvalidArgument <==> FieldsOk(c, rx) && NamesTwo(c.mask) && layout != CurrentLayout(c.layers)
    ensures status == Ok ==> Modelled(m, c, rank, count, sc + behind)
    ensures status == Ok ==> forall s :: 2 * c.layers <= s < 8 ==> m.count[s] == 0 && m.hash[s] == 0
    ensures status == Ok ==> m == WeightModel(0x43455731, 1, 128, c.layers, 2, rank, 832, m.count, m.hash,
                                              [0, 0, 0, 0, 0, 0, 0, 0])
  {
    m := WeightModel(0, 0, 0, 0, 0, 0, 0, [], [], []);
    status := ValidateProfile(c, layout, rx);
    if status != Ok {
      return;
    }
    var memory := sc + behind;
    var counts, hashes := [], [];
    while |counts| < 2 * c.layers
      invariant |counts| == |hashes| <= 2 * c.layers
      invariant forall s: nat :: s < |counts| ==> Hashed(counts, hashes, count, memory, s)
    {
      var s := |counts|;
      var hash := PilotScHash(memory, Base(s), count[s]);
      ghost var counts0, hashes0 := counts, hashes;
      counts, hashes := counts + [count[s]], hashes + [hash];
      forall t: nat | t < |counts|
        ensures Hashed(counts, hashes, count, memory, t)
      {
        assert t < s ==> Hashed(counts0, hashes0, count, memory, t);
      }
    }
    ghost var used := |counts|;
    var zeros := seq(SLOTS - |counts|, _ => 0);
    m := WeightModel(WEIGHT_MODEL_MAGIC, ABI_VERSION, WEIGHT_MODEL_SIZE, c.layers, 2, rank, N_PILOT_PAD,
                     counts + zeros, hashes + zeros, seq(8, _ => 0));
    forall s: nat | s < 2 * c.layers
      ensures Fingerprint(m, count, memory, s)
    {
      assert Hashed(counts, hashes, count, memory, s);
    }
  }

  ghost predicate Hashed(counts: seq<nat>, hashes: seq<nat>, count: seq<nat>, memory: seq<nat>, s: nat) {
    && s < |counts| && s < |hashes| && s < SLOTS <= |count| && Base(s) + count[s] <= |memory|
    && counts[s] == count[s] && hashes[s] == Fnv1a(LittleEndian(Announced(count, memory, s)))
  }

  // ---------- observation model ----------

  /** Positions as the operator expects them. */
  ghost predicate SlotExpected(c: Config, count: seq<nat>, sc: seq<nat>, slot: nat)
    requires |c.ports| == 4 && c.layers <= MAX_LAYERS && TableShaped(count, sc) && slot < 2 * c.layers
  {
    var sharing := SharingUpTo(c, LayerOf(slot), c.layers);
    && count[slot] == ExpectedCount(sharing)
    && ExpectedRow(Row(sc, slot, count[slot]), Comb32(c.ports[LayerOf(slot)]), sharing)
  }

  /** What the test says about one slot. */
  ghost function SlotVerdict(m: WeightModel, c: Config, count: seq<nat>, sc: seq<nat>, slot: nat): Status
    requires |c.ports| == 4 && c.layers <= MAX_LAYERS && TableShaped(count, sc) && slot < 2 * c.layers
  {
    if !SlotExpected(c, count, sc, slot) then ObservationMismatch
    else if !Fingerprint(m, count, sc, slot) then WeightModelMismatch
    else Ok
  }

  ghost function Verdicts(m: WeightModel, c: Config, count: seq<nat>, sc: seq<nat>): (v: seq<Status>)
    requires |c.ports| == 4 && c.layers <= MAX_LAYERS && TableShaped(count, sc)
    ensures |v| == 2 * c.layers && forall slot: nat :: slot < |v| ==> v[slot] == SlotVerdict(m, c, count, sc, slot)
  {
    seq(2 * c.layers, slot requires 0 <= slot < 2 * c.layers => SlotVerdict(m, c, count, sc, slot))
  }

  /** The first slot, in layer and symbol order, that does not pass decides. */
  function FirstFailure(v: seq<Status>, n: nat): Status
    requires n <= |v|
  {
    if n == 0 then Ok
    else
      var before := FirstFailure(v, n - 1);
      if before != Ok then before else v[n - 1]
  }

  lemma {:induction false} AllPass(v: seq<Status>, n: nat)
    requires n <= |v|
    ensures FirstFailure(v, n) == Ok <==> forall slot :: 0 <= slot < n ==> v[slot] == Ok
  {
    if n > 0 {
      AllPass(v, n - 1);
    }
  }

  lemma {:induction false} FailureStays(v: seq<Status>, k: nat, n: nat)
    requires k <= n <= |v| && FirstFailure(v, k) != Ok
    ensures FirstFailure(v, n) == FirstFailure(v, k)
  {
    if k < n {
      FailureStays(v, k, n - 1);
    }
  }

  method PositionsMatch(sc: seq<nat>, base: nat, comb: nat, sharing: nat, n: nat) returns (ok: bool)
    requires base + n <= |sc|
    ensures ok <==> ExpectedRow(sc[base..base + n], comb, sharing)
  {
    ghost var row := sc[base..base + n];
    for p := 0 to n
      invariant forall p': nat :: p' < p ==> row[p'] == ExpectedSc(comb, sharing, p')
    {
      var expected := if sharing == 2 then (comb % 0x1_0000 + 1 + 4 * p) % 0x1_0000
                      else (comb % 0x1_0000 + 2 * p) % 0x1_0000;
      if sc[base + p] != expected {
        assert row[p] != ExpectedSc(comb, sharing, p);
        return false;
      }
    }
    ok := true;
  }

  /** Compare one slot with its fingerprint. */
  method CheckFingerprint(m: WeightModel, count: seq<nat>, sc: seq<nat>, slot: nat, expected: nat) returns (ok: bool)
    requires TableShaped(count, sc) && slot < SLOTS && |m.count| == |m.hash| == SLOTS
    requires expected == count[slot] <= N_PILOT_PAD
    ensures ok <==> Fingerprint(m, count, sc, slot)
  {
    var hash := PilotScHash(sc, Base(slot), expected);
    ok := m.count[slot] == expected && m.hash[slot] == hash;
  }

  /** One slot of the test. */
  method CheckSlot(m: WeightModel, c: Config, count: seq<nat>, sc: seq<nat>, slot: nat, sharing: nat)
    returns (status: Status)
    requires |c.ports| == 4 && c.layers <= MAX_LAYERS && TableShaped(count, sc) && slot < 2 * c.layers
    requires |m.count| == |m.hash| == SLOTS && sharing == SharingUpTo(c, LayerOf(slot), c.layers)
    ensures status == SlotVerdict(m, c, count, sc, slot)
  {
    var expected := if sharing == 2 then N_OCC else N_PILOT;
    if count[slot] != expected {
      return ObservationMismatch;
    }
    var matches := PositionsMatch(sc, Base(slot), Comb32(c.ports[LayerOf(slot)]), sharing, expected);
    if !matches {
      return ObservationMismatch;
    }
    var same := CheckFingerprint(m, count, sc, slot, expected);
    status := if same then Ok else WeightModelMismatch;
  }

  /** The next slot; the verdict is final when it fails. */
  method CheckNext(m: WeightModel, c: Config, count: seq<nat>, sc: seq<nat>, slot: nat, sharing: nat,
                   ghost v: seq<Status>)
    returns (status: Status)
    requires |c.ports| == 4 && c.layers <= MAX_LAYERS && TableShaped(count, sc) && slot < 2 * c.layers
    requires |m.count| == |m.hash| == SLOTS && sharing == SharingUpTo(c, LayerOf(slot), c.layers)
    requires |v| == 2 * c.layers && v[slot] == SlotVerdict(m, c, count, sc, slot) && FirstFailure(v, slot) == Ok
    ensures status == FirstFailure(v, slot + 1)
    ensures status != Ok ==> status == FirstFailure(v, |v|)
  {
    status := CheckSlot(m, c, count, sc, slot, sharing);
    if status != Ok {
      FailureStays(v, slot + 1, |v|);
    }
  }

  /** A layer's count, refused unless it is one or two; it always is. */
  method AcceptedSharing(c: Config, layer: nat) returns (ok: bool, sharing: nat)
    requires |c.ports| == 4 && layer < c.layers <= MAX_LAYERS && PortsDistinct(c)
    ensures ok && sharing == SharingUpTo(c, layer, c.layers)
  {
    sharing := SharingCount(c, layer);
    ok := sharing != 0 && sharing <= 2;
  }

  /** Both slots of one layer. */
  method CheckPair(m: WeightModel, c: Config, count: seq<nat>, sc: seq<nat>, slot: nat, sharing: nat,
                   ghost v: seq<Status>)
    returns (status: Status)
    requires |c.ports| == 4 && c.layers <= MAX_LAYERS && TableShaped(count, sc) && slot + 1 < 2 * c.layers
    requires LayerOf(slot) == LayerOf(slot + 1) && sharing == SharingUpTo(c, LayerOf(slot), c.layers)
    requires |m.count| == |m.hash| == SLOTS && |v| == 2 * c.layers && FirstFailure(v, slot) == Ok
    requires v[slot] == SlotVerdict(m, c, count, sc, slot) && v[slot + 1] == SlotVerdict(m, c, count, sc, slot + 1)
    ensures status == FirstFailure(v, slot + 2)
    ensures status != Ok ==> status == FirstFailure(v, |v|)
  {
    status := CheckNext(m, c, count, sc, slot, sharing, v);
    if status == Ok {
      status := CheckNext(m, c, count, sc, slot + 1, sharing, v);
    } else {
      FailureStays(v, slot + 1, slot + 2);
    }
  }

  method CheckLayer(m: WeightModel, c: Config, count: seq<nat>, sc: seq<nat>, layer: nat, ghost v: seq<Status>)
    returns (status: Status)
    requires |c.ports| == 4 && c.layers <= MAX_LAYERS && TableShaped(count, sc) && PortsDistinct(c)
    requires |m.count| == |m.hash| == SLOTS && layer < c.layers && |v| == 2 * c.layers
    requires v[2 * layer] == SlotVerdict(m, c, count, sc, 2 * layer) && FirstFailure(v, 2 * layer) == Ok
    requires v[2 * layer + 1] == SlotVerdict(m, c, count, sc, 2 * layer + 1)
    ensures status == FirstFailure(v, 2 * layer + 2)
    ensures status != Ok ==> status == FirstFailure(v, |v|)
  {
    var slot := 2 * layer;
    assert LayerOf(slot) == layer == LayerOf(slot + 1);
    var ok, sharing := AcceptedSharing(c, layer);
    status := UnsupportedProfile;
    if ok {
      status := CheckPair(m, c, count, sc, slot, sharing, v);
    }
  }

  /** The slots of all layers, layer by layer. */
  method CheckLayers(m: WeightModel, c: Config, count: seq<nat>, sc: seq<nat>) returns (status: Status)
    requires |c.ports| == 4 && c.layers <= MAX_LAYERS && TableShaped(count, sc) && PortsDistinct(c)
    requires |m.count| == |m.hash| == SLOTS
    ensures var v := Verdicts(m, c, count, sc); status == FirstFailure(v, |v|)
  {
    status := Ok;
    ghost var v := Verdicts(m, c, count, sc);
    for layer := 0 to c.layers
      invariant status == Ok == FirstFailure(v, 2 * layer)
    {
      status := CheckLayer(m, c, count, sc, layer, v);
      if status != Ok {
        return;
      }
    }
  }

  /** The whole test's outcome. */
  ghost function ObservationStatus(m: WeightModel, c: Config, layout: LayoutWords, rx: nat, rank: nat, count: seq<nat>,
                                   sc: seq<nat>): Status
    requires Widths(c) && TableShaped(count, sc)
  {
    if !FieldsOk(c, rx) || !NamesTwo(c.mask) then UnsupportedProfile
    else if layout != CurrentLayout(c.layers) then InvalidArgument
    else if !PortsDistinct(c) then UnsupportedProfile
    else if !HeaderOk(m, c, rank) then WeightModelMismatch
    else
      var v := Verdicts(m, c, count, sc);
      FirstFailure(v, |v|)
  }

  method ValidateObservationModel(m: WeightModel, c: Config, layout: LayoutWords, rx: nat, rank: nat, count: seq<nat>,
                                  sc: seq<nat>) returns (status: Status)
    requires Widths(c) && TableShaped(count, sc) && |m.count| == |m.hash| == SLOTS
    ensures status == ObservationStatus(m, c, layout, rx, rank, count, sc)
    ensures status == Ok ==>
      && m.magic == 0x43455731 && m.abi == 1 && m.size >= 128 && m.layers == c.layers && m.dmrsSymbols == 2
      && m.rank == rank && m.stride == 832 && forall i :: 0 <= i < |m.reserved| ==> m.reserved[i] == 0
  {
    status := ValidateProfile(c, layout, rx);
    if status != Ok {
      return;
    }
    if m.magic != WEIGHT_MODEL_MAGIC || m.abi != ABI_VERSION || m.size < WEIGHT_MODEL_SIZE || m.layers != c.layers ||
       m.dmrsSymbols != 2 || m.rank != rank || m.stride != N_PILOT_PAD ||
       exists i :: 0 <= i < |m.reserved| && m.reserved[i] != 0 {
      return WeightModelMismatch;
    }
    status := CheckLayers(m, c, count, sc);
  }
}
