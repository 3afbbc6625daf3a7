/**
 One producer and two validators of pilot tables. The producer works with comb offsets and a despreading
 flag, the natural contract with arithmetic progressions, the observation model with its own sharing
 count, 32-bit and 16-bit arithmetic; what ties them together is the set of pilot subcarriers.
 */
module PilotAgreement {
  import opened Fnv
  import opened PuschTypes
  import opened Pilots
  import MimoDmrsLs
  import opened ChannelEstLmmse

  lemma OwnGroup(c: Config, layer: nat)
    requires Widths(c) && PortsDistinct(c) && layer < c.layers
    ensures Group(c.ports[layer]) <= 1 && Comb32(c.ports[layer]) == Group(c.ports[layer])
  {
  }

  /** The 16-bit casts change nothing within a slot. */
  lemma ExpectedRowIsProgression(row: seq<nat>, comb: nat, sharing: nat)
    requires comb <= 1 && |row| <= N_PILOT_PAD
    ensures ExpectedRow(row, comb, sharing)
       <==> if sharing == 2 then Progression(row, 1 + comb, 4) else Progression(row, comb, 2)
  {
    forall p: nat | p < |row|
      ensures ExpectedSc(comb, sharing, p) == if sharing == 2 then 1 + comb + 4 * p else comb + 2 * p
    {
    }
  }

  /** A row is as expected exactly when it lists the layer's pilots. */
  lemma ExpectedRowLists(c: Config, layer: nat, row: seq<nat>, sharing: nat)
    requires Widths(c) && PortsDistinct(c) && layer < c.layers <= MAX_LAYERS && |row| <= N_PILOT_PAD
    requires sharing == if Paired(c, layer) then 2 else 1
    ensures |row| == ExpectedCount(sharing) && ExpectedRow(row, Comb32(c.ports[layer]), sharing)
         <==> RowLists(c, layer, row)
  {
    OwnGroup(c, layer);
    ExpectedRowIsProgression(row, Comb32(c.ports[layer]), sharing);
    if RowLists(c, layer, row) {
      ListedIsProgression(c, layer, row);
    } else if |row| == ExpectedCount(sharing) && ExpectedRow(row, Comb32(c.ports[layer]), sharing) {
      if Paired(c, layer) {
        PairLists(c, layer, row);
      } else {
        CombLists(c, layer, row);
      }
    }
  }

  /** The observation model expects exactly the pilots of each layer, in order. */
  lemma ExpectedIsListed(c: Config, count: seq<nat>, sc: seq<nat>, slot: nat)
    requires Widths(c) && PortsDistinct(c) && c.layers <= MAX_LAYERS && TableShaped(count, sc) && slot < 2 * c.layers
    ensures SlotExpected(c, count, sc, slot) <==> SlotLists(c, count, sc, slot)
  {
    var layer := LayerOf(slot);
    SharingIsPaired(c, layer);
    if count[slot] <= N_PILOT_PAD {
      ExpectedRowLists(c, layer, Row(sc, slot, count[slot]), SharingUpTo(c, layer, c.layers));
    }
  }

  /** Another layer's port is on the same comb. */
  ghost predicate CombShared(c: Config, layer: nat)
    requires layer < c.layers <= |c.ports|
  {
    exists peer: nat :: peer < c.layers && peer != layer && c.ports[peer] / 2 == c.ports[layer] / 2
  }

  lemma SharedIsPaired(c: Config, layer: nat)
    requires PortsDistinct(c) && layer < c.layers
    ensures CombShared(c, layer) <==> Paired(c, layer)
    ensures Group(c.ports[layer]) == (c.ports[layer] - 1000) / 2
  {
    if CombShared(c, layer) {
      var peer: nat :| peer < c.layers && peer != layer && c.ports[peer] / 2 == c.ports[layer] / 2;
      assert Group(c.ports[peer]) == Group(c.ports[layer]);
    }
  }

  lemma RowEntries(sc: seq<nat>, slot: nat, n: nat)
    requires slot < 8 && n <= 832 && |sc| == 6656
    ensures forall p: nat :: p < n ==> Row(sc, slot, n)[p] == sc[832 * slot + p]
  {
  }

  /** A listed table entry by entry: 832 positions a slot, two slots a layer, and in each the layer's 399 or 798
      subcarriers. */
  lemma ListedPositions(c: Config, count: seq<nat>, sc: seq<nat>, layer: nat, symbol: nat, slot: nat, g: nat)
    requires Widths(c) && PortsDistinct(c) && c.layers <= 4 && TableShaped(count, sc) && Listed(c, count, sc)
    requires layer < c.layers && symbol < 2 && slot == 2 * layer + symbol && g == (c.ports[layer] - 1000) / 2
    ensures |count| == 16 && |sc| == 6656 && g <= 1
    ensures CombShared(c, layer) ==>
      count[slot] == 399 && forall p: nat :: p < 399 ==> sc[832 * slot + p] == 1 + g + 4 * p
    ensures !CombShared(c, layer) ==>
      count[slot] == 798 && forall p: nat :: p < 798 ==> sc[832 * slot + p] == g + 2 * p
  {
    assert SlotLists(c, count, sc, slot);
    SharedIsPaired(c, layer);
    ListedIsProgression(c, layer, Row(sc, slot, count[slot]));
    RowEntries(sc, slot, count[slot]);
  }

  /** Behind them a padded slot is clear to its end. */
  lemma PaddingIsClear(c: Config, count: seq<nat>, sc: seq<nat>, slot: nat, p: nat)
    requires c.layers <= 4 && TableShaped(count, sc) && Padded(c, count, sc) && slot < 2 * c.layers
    requires count[slot] <= p < 832
    ensures 832 * slot + p < 6656 && sc[832 * slot + p] == 0
  {
    assert SlotClear(count, sc, slot);
  }

  /** What the observation model accepts, in terms of pilots. */
  ghost predicate Accepted(m: WeightModel, c: Config, layout: LayoutWords, rx: nat, rank: nat, count: seq<nat>,
                           sc: seq<nat>)
    requires Widths(c) && TableShaped(count, sc)
  {
    && Supported(c, rx) && layout == CurrentLayout(c.layers) && Listed(c, count, sc)
    && Modelled(m, c, rank, count, sc)
  }

  lemma SlotPasses(m: WeightModel, c: Config, count: seq<nat>, sc: seq<nat>, slot: nat)
    requires Widths(c) && PortsDistinct(c) && c.layers <= MAX_LAYERS && TableShaped(count, sc) && slot < 2 * c.layers
    ensures SlotVerdict(m, c, count, sc, slot) == Ok
         <==> SlotLists(c, count, sc, slot) && Fingerprint(m, count, sc, slot)
  {
    ExpectedIsListed(c, count, sc, slot);
  }

  lemma AllSlotsPass(m: WeightModel, c: Config, rank: nat, count: seq<nat>, sc: seq<nat>)
    requires Widths(c) && PortsDistinct(c) && c.layers <= MAX_LAYERS && TableShaped(count, sc)
    requires |m.count| == |m.hash| == SLOTS
    requires HeaderOk(m, c, rank)
    ensures var v := Verdicts(m, c, count, sc);
            FirstFailure(v, |v|) == Ok <==> Listed(c, count, sc) && Modelled(m, c, rank, count, sc)
  {
    var v := Verdicts(m, c, count, sc);
    AllPass(v, |v|);
    forall slot: nat | slot < 2 * c.layers
      ensures v[slot] == Ok <==> SlotLists(c, count, sc, slot) && Fingerprint(m, count, sc, slot)
    {
      SlotPasses(m, c, count, sc, slot);
    }
  }

  /**
   The observation model accepts a table exactly when the configuration is supported, every used slot
   lists its layer's pilots, and the weight model is the table's fingerprint.
   */
  lemma AcceptedMeans(m: WeightModel, c: Config, layout: LayoutWords, rx: nat, rank: nat, count: seq<nat>, sc: seq<nat>)
    requires Widths(c) && TableShaped(count, sc) && |m.count| == |m.hash| == SLOTS
    ensures ObservationStatus(m, c, layout, rx, rank, count, sc) == Ok <==> Accepted(m, c, layout, rx, rank, count, sc)
  {
    if Supported(c, rx) && HeaderOk(m, c, rank) {
      AllSlotsPass(m, c, rank, count, sc);
    }
  }

  /** A slot fails as an observation mismatch or as a weight-model mismatch. */
  ghost predicate SlotFails(m: WeightModel, c: Config, count: seq<nat>, sc: seq<nat>, slot: nat, status: Status)
    requires TableShaped(count, sc) && slot < 2 * c.layers && c.layers <= MAX_LAYERS && c.layers <= |c.ports|
  {
    || (status == ObservationMismatch && !SlotLists(c, count, sc, slot))
    || (status == WeightModelMismatch && SlotLists(c, count, sc, slot) && !Fingerprint(m, count, sc, slot))
  }

  /** It fails with this status, and the slots before it pass. */
  ghost predicate FailsFirst(m: WeightModel, c: Config, count: seq<nat>, sc: seq<nat>, slot: nat, status: Status)
    requires TableShaped(count, sc) && c.layers <= MAX_LAYERS && c.layers <= |c.ports|
  {
    && slot < 2 * c.layers && SlotFails(m, c, count, sc, slot, status)
    && forall s: nat :: s < slot ==> SlotLists(c, count, sc, s) && Fingerprint(m, count, sc, s)
  }

  lemma {:induction false} FirstFailureAt(v: seq<Status>, n: nat) returns (slot: nat)
    requires n <= |v| && FirstFailure(v, n) != Ok
    ensures slot < n && v[slot] == FirstFailure(v, n) && forall s :: 0 <= s < slot ==> v[s] == Ok
  {
    if FirstFailure(v, n - 1) == Ok {
      slot := n - 1;
      AllPass(v, n - 1);
    } else {
      slot := FirstFailureAt(v, n - 1);
    }
  }

  lemma SlotFailsHow(m: WeightModel, c: Config, count: seq<nat>, sc: seq<nat>, slot: nat)
    requires Widths(c) && PortsDistinct(c) && c.layers <= MAX_LAYERS && TableShaped(count, sc) && slot < 2 * c.layers
    requires SlotVerdict(m, c, count, sc, slot) != Ok
    ensures SlotFails(m, c, count, sc, slot, SlotVerdict(m, c, count, sc, slot))
  {
    ExpectedIsListed(c, count, sc, slot);
  }

  /**
   Which mismatch goes with which failure: an observation mismatch means that the first used slot to fail does not
   list its layer's pilots, a weight-model mismatch that the header is another's or that this slot lists them and
   has another fingerprint.
   */
  lemma MismatchMeans(m: WeightModel, c: Config, layout: LayoutWords, rx: nat, rank: nat, count: seq<nat>,
                      sc: seq<nat>, status: Status)
    requires Widths(c) && TableShaped(count, sc) && |m.count| == |m.hash| == SLOTS
    requires status == ObservationStatus(m, c, layout, rx, rank, count, sc)
    requires status == ObservationMismatch || status == WeightModelMismatch
    ensures Supported(c, rx) && layout == CurrentLayout(c.layers)
    ensures HeaderOk(m, c, rank) ==> exists slot: nat :: FailsFirst(m, c, count, sc, slot, status)
    ensures !HeaderOk(m, c, rank) ==> status == WeightModelMismatch
  {
    if HeaderOk(m, c, rank) {
      var v := Verdicts(m, c, count, sc);
      var slot := FirstFailureAt(v, |v|);
      SlotFailsHow(m, c, count, sc, slot);
      forall s: nat | s < slot
        ensures SlotLists(c, count, sc, s) && Fingerprint(m, count, sc, s)
      {
        assert v[s] == Ok;
        SlotPasses(m, c, count, sc, s);
      }
      assert FailsFirst(m, c, count, sc, slot, status);
    }
  }

  lemma SameFingerprint(m: WeightModel, count: seq<nat>, sc: seq<nat>, behind: seq<nat>, s: nat)
    requires s < SLOTS <= |count| && Base(s) + count[s] <= |sc|
    ensures Fingerprint(m, count, sc + behind, s) <==> Fingerprint(m, count, sc, s)
  {
    assert (sc + behind)[Base(s)..Base(s) + count[s]] == sc[Base(s)..Base(s) + count[s]];
  }

  /**
   Producer to observation model: for every supported configuration, the produced table with the weight
   model built from it is accepted, whatever lies behind the table in memory.
   */
  lemma ProducedIsObserved(m: WeightModel, c: Config, rx: nat, rank: nat, count: seq<nat>, sc: seq<nat>,
                           behind: seq<nat>)
    requires Widths(c) && Supported(c, rx) && TableShaped(count, sc) && |m.count| == |m.hash| == SLOTS
    requires Listed(c, count, sc) && Modelled(m, c, rank, count, sc + behind)
    ensures ObservationStatus(m, c, CurrentLayout(c.layers), rx, rank, count, sc) == Ok
  {
    forall s: nat | s < 2 * c.layers
      ensures Fingerprint(m, count, sc, s)
    {
      assert SlotLists(c, count, sc, s) && Fingerprint(m, count, sc + behind, s);
      SameFingerprint(m, count, sc, behind, s);
    }
    AcceptedMeans(m, c, CurrentLayout(c.layers), rx, rank, count, sc);
  }

  /** Producer to natural contract. */
  lemma ProducedIsNatural(c: Config, rx: nat, count: seq<nat>, sc: seq<nat>)
    requires Widths(c) && Supported(c, rx) && TableShaped(count, sc)
    requires Listed(c, count, sc) && Padded(c, count, sc)
    ensures MimoDmrsLs.NaturalOk(count, sc, c.layers)
  {
    forall slot: nat | slot < 2 * c.layers
      ensures MimoDmrsLs.SlotNatural(count, sc, slot)
    {
      ListedIsNatural(c, count, sc, slot);
    }
  }

  lemma ListedIsNatural(c: Config, count: seq<nat>, sc: seq<nat>, slot: nat)
    requires Widths(c) && PortsDistinct(c) && c.layers <= MAX_LAYERS && TableShaped(count, sc) && slot < 2 * c.layers
    requires Listed(c, count, sc)
    ensures SlotClear(count, sc, slot) <==> MimoDmrsLs.SlotNatural(count, sc, slot)
  {
    var layer, even := LayerOf(slot), 2 * LayerOf(slot);
    assert LayerOf(even) == layer;
    assert SlotLists(c, count, sc, slot) && SlotLists(c, count, sc, even);
    var row := Row(sc, slot, count[slot]);
    OwnGroup(c, layer);
    ListedIsProgression(c, layer, row);
    ListedIsProgression(c, layer, Row(sc, even, count[even]));
    assert row[0] == sc[Base(slot)];
  }

  /**
   Observation model to producer: the producer accepts every configuration with which any table was
   accepted, and its table has the same counts and the same positions in every used entry.
   */
  lemma ObservedIsProduced(m: WeightModel, c: Config, layout: LayoutWords, rx: nat, rank: nat, count: seq<nat>,
                           sc: seq<nat>, count': seq<nat>, sc': seq<nat>, slot: nat)
    requires Widths(c) && TableShaped(count, sc) && |m.count| == |m.hash| == SLOTS
    requires ObservationStatus(m, c, layout, rx, rank, count, sc) == Ok
    requires TableShaped(count', sc') && slot < 2 * c.layers
    ensures Supported(c, rx)
    ensures Listed(c, count', sc') ==> count'[slot] == count[slot] <= N_PILOT_PAD
                                       && Row(sc', slot, count[slot]) == Row(sc, slot, count[slot])
  {
    AcceptedMeans(m, c, layout, rx, rank, count, sc);
    assert SlotLists(c, count, sc, slot);
    if Listed(c, count', sc') {
      assert SlotLists(c, count', sc', slot);
      RowUnique(c, LayerOf(slot), Row(sc, slot, count[slot]), Row(sc', slot, count'[slot]));
    }
  }

  /** A table the observation model accepts passes the natural contract exactly when its unused entries
      are clear, which only the natural contract checks. */
  lemma ObservedIsNaturalIff(m: WeightModel, c: Config, layout: LayoutWords, rx: nat, rank: nat, count: seq<nat>,
                             sc: seq<nat>)
    requires Widths(c) && TableShaped(count, sc) && |m.count| == |m.hash| == SLOTS
    requires ObservationStatus(m, c, layout, rx, rank, count, sc) == Ok
    ensures c.layers <= MAX_LAYERS
    ensures MimoDmrsLs.NaturalOk(count, sc, c.layers) <==> Padded(c, count, sc)
  {
    AcceptedMeans(m, c, layout, rx, rank, count, sc);
    forall slot: nat | slot < 2 * c.layers
      ensures SlotClear(count, sc, slot) <==> MimoDmrsLs.SlotNatural(count, sc, slot)
    {
      ListedIsNatural(c, count, sc, slot);
    }
  }

  /** A weight model accepted with one table is accepted with every table the configuration produces: the
      two sides cannot disagree about which weights fit. */
  lemma FingerprintTransfers(m: WeightModel, c: Config, layout: LayoutWords, rx: nat, rank: nat, count: seq<nat>,
                             sc: seq<nat>, count': seq<nat>, sc': seq<nat>)
    requires Widths(c) && TableShaped(count, sc) && TableShaped(count', sc') && |m.count| == |m.hash| == SLOTS
    requires ObservationStatus(m, c, layout, rx, rank, count, sc) == Ok
    requires c.layers <= MAX_LAYERS && Listed(c, count', sc')
    ensures ObservationStatus(m, c, layout, rx, rank, count', sc') == Ok
  {
    AcceptedMeans(m, c, layout, rx, rank, count, sc);
    forall s: nat | s < 2 * c.layers
      ensures Fingerprint(m, count', sc', s)
    {
      ObservedIsProduced(m, c, layout, rx, rank, count, sc, count', sc', s);
      assert SlotLists(c, count', sc', s) && Fingerprint(m, count, sc, s);
      assert Row(sc, s, count[s]) == Announced(count, sc, s) && Row(sc', s, count[s]) == Announced(count', sc', s);
    }
    AcceptedMeans(m, c, layout, rx, rank, count', sc');
  }

  lemma SliceChange(a: seq<nat>, b: seq<nat>, lo: nat, n: nat, at: nat)
    requires |a| == |b| && lo <= at < lo + n <= |a| && Words(a) && Words(b) && a[at] != b[at]
    requires forall i :: lo <= i < lo + n && i != at ==> a[i] == b[i]
    ensures Fnv1a(LittleEndian(a[lo..lo + n])) != Fnv1a(LittleEndian(b[lo..lo + n]))
  {
    DetectsOneChange(a[lo..lo + n], b[lo..lo + n], at - lo);
  }

  /** A single pilot position changed anywhere in a used slot always shows in its fingerprint. */
  lemma ChangeIsDetected(m: WeightModel, count: seq<nat>, sc: seq<nat>, sc': seq<nat>, s: nat, at: nat)
    requires Words(sc) && Words(sc') && |sc| == |sc'| && Fingerprint(m, count, sc, s)
    requires Base(s) <= at < Base(s) + count[s] && sc[at] != sc'[at]
    requires forall i :: Base(s) <= i < Base(s) + count[s] && i != at ==> sc[i] == sc'[i]
    ensures !Fingerprint(m, count, sc', s)
  {
    SliceChange(sc, sc', Base(s), count[s], at);
  }
}
