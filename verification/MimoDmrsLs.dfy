/** The producer of pilot tables, and the natural contract beside it. */
module MimoDmrsLs {
  import opened Bits
  import opened PuschTypes
  import opened Pilots

  const N_DMRS_RE: nat := 798
  const N_OCC_PILOT: nat := 399

  // ---------- the producer ----------

  /** The symbols the mask names, in order. */
  method DmrsSymbols(mask: nat) returns (symbols: seq<nat>)
    requires mask < 0x4000
    ensures |symbols| == Popcount(mask) && Increasing(symbols)
    ensures forall s: nat :: s in symbols <==> s < 14 && BitAt(mask, s)
  {
    symbols := [];
    for symbol := 0 to N_SYMBOLS
      invariant |symbols| == BitsIn(mask, symbol) && Increasing(symbols)
      invariant forall s: nat :: s in symbols <==> s < symbol && BitAt(mask, s)
    {
      if BitAt(mask, symbol) {
        assert forall p :: 0 <= p < |symbols| ==> symbols[p] in symbols;
        symbols := symbols + [symbol];
      }
    }
    assert Pow2(14) == 0x4000;
    BitsAllBelow(mask, N_SYMBOLS);
  }

  /** Check the ports and note each layer's comb offset. */
  method ReadPorts(c: Config) returns (ok: bool, combDelta: seq<nat>)
    requires Widths(c) && c.layers <= MAX_LAYERS
    ensures ok <==> PortsDistinct(c)
    ensures ok ==> GroupsOf(c, combDelta)
  {
    combDelta := [];
    for layer := 0 to c.layers
      invariant |combDelta| == layer
      invariant forall k :: 0 <= k < layer ==> 1000 <= c.ports[k] <= 1003 && combDelta[k] == Group(c.ports[k])
      invariant forall i, j :: 0 <= i < j < layer ==> c.ports[i] != c.ports[j]
    {
      var port := c.ports[layer];
      if port < 1000 || port > 1003 {
        return false, combDelta;
      }
      for previous := 0 to layer
        invariant forall i :: 0 <= i < previous ==> c.ports[i] != port
      {
        if c.ports[previous] == port {
          return false, combDelta;
        }
      }
      combDelta := combDelta + [(port - 1000) / 2];
    }
    ok := true;
  }

  /** Count the layers on the same comb; more than two would be refused, but cannot occur. */
  method ChooseModels(c: Config, combDelta: seq<nat>) returns (ok: bool, despread: seq<bool>)
    requires PortsDistinct(c) && GroupsOf(c, combDelta)
    ensures ok && |despread| == c.layers && forall k: nat :: k < c.layers ==> (despread[k] <==> Paired(c, k))
  {
    despread := [];
    for layer := 0 to c.layers
      invariant |despread| == layer && forall k: nat :: k < layer ==> (despread[k] <==> Paired(c, k))
    {
      var sharing := 0;
      for peer := 0 to c.layers
        invariant sharing == CountEqual(combDelta, combDelta[layer], peer)
      {
        sharing := sharing + if combDelta[peer] == combDelta[layer] then 1 else 0;
      }
      SharingIsPairing(c, combDelta, layer);
      if sharing > 2 {
        return false, despread;
      }
      despread := despread + [sharing == 2];
    }
    ok := true;
  }

  /** Slots before n are filled, storage from slot n on is clear. */
  ghost predicate FilledUpTo(c: Config, count: seq<nat>, sc: seq<nat>, n: nat)
    requires c.layers <= MAX_LAYERS && c.layers <= |c.ports|
  {
    && TableShaped(count, sc) && n <= 2 * c.layers
    && (forall slot: nat :: slot < n ==> SlotFilled(c, count, sc, slot))
    && (forall i :: Base(n) <= i < TABLE ==> sc[i] == 0)
    && (forall i :: n <= i < COUNT_PAD ==> count[i] == 0)
  }

  /** Slots beyond the layers in use are clear, counts and positions. */
  ghost predicate RestClear(c: Config, count: seq<nat>, sc: seq<nat>)
    requires TableShaped(count, sc)
  {
    && (forall i :: 2 * c.layers <= i < 16 ==> count[i] == 0)
    && forall i :: 832 * (2 * c.layers) <= i < 6656 ==> sc[i] == 0
  }

  ghost predicate SlotFilled(c: Config, count: seq<nat>, sc: seq<nat>, slot: nat)
    requires |count| == COUNT_PAD && |sc| == TABLE && slot < 2 * c.layers && c.layers <= MAX_LAYERS
    requires c.layers <= |c.ports|
  {
    SlotLists(c, count, sc, slot) && SlotClear(count, sc, slot)
  }

  lemma SlotStays(c: Config, count0: seq<nat>, sc0: seq<nat>, count: seq<nat>, sc: seq<nat>, slot: nat)
    requires c.layers <= MAX_LAYERS && c.layers <= |c.ports| && slot < 2 * c.layers
    requires |count0| == |count| == COUNT_PAD && |sc0| == |sc| == TABLE
    requires SlotFilled(c, count0, sc0, slot) && count[slot] == count0[slot]
    requires forall i :: Base(slot) <= i < Base(slot) + N_PILOT_PAD ==> sc[i] == sc0[i]
    ensures SlotFilled(c, count, sc, slot)
  {
    assert Row(sc, slot, count[slot]) == Row(sc0, slot, count0[slot]);
  }

  /** Write one slot's positions, cast to 16 bits. */
  method WritePositions(sc: array<nat>, base: nat, combDelta: nat, despread: bool, count: nat)
    requires base + count <= sc.Length && count <= N_PILOT_PAD && combDelta <= 1
    modifies sc
    ensures forall p: nat :: p < count ==>
      sc[base + p] == combDelta + (if despread then 1 + 4 * p else 2 * p) < 0x1_0000
    ensures forall i :: 0 <= i < base ==> sc[i] == old(sc[i])
    ensures forall i :: base + count <= i < sc.Length ==> sc[i] == old(sc[i])
  {
    forall p | 0 <= p < count {
      sc[base + p] := (combDelta + if despread then 1 + 4 * p else 2 * p) % 0x1_0000;
    }
  }

  lemma WrittenLists(c: Config, layer: nat, row: seq<nat>, combDelta: nat, despread: bool)
    requires PortsDistinct(c) && layer < c.layers && combDelta == Group(c.ports[layer])
    requires (despread <==> Paired(c, layer))
    requires |row| == if despread then N_OCC_PILOT else N_DMRS_RE
    requires forall p: nat :: p < |row| ==> row[p] == combDelta + if despread then 1 + 4 * p else 2 * p
    ensures RowLists(c, layer, row)
  {
    if despread {
      PairLists(c, layer, row);
    } else {
      CombLists(c, layer, row);
    }
  }

  /** Fill one slot over cleared storage. */
  method FillSlot(ghost c: Config, slot: nat, combDelta: nat, despread: bool, count: array<nat>, sc: array<nat>)
    requires c.layers <= MAX_LAYERS && PortsDistinct(c) && slot < 2 * c.layers && count != sc
    requires combDelta == Group(c.ports[LayerOf(slot)]) && (despread <==> Paired(c, LayerOf(slot)))
    requires FilledUpTo(c, count[..], sc[..], slot)
    modifies count, sc
    ensures FilledUpTo(c, count[..], sc[..], slot + 1)
  {
    ghost var count0, sc0 := count[..], sc[..];
    var n := if despread then N_OCC_PILOT else N_DMRS_RE;
    count[slot] := n;
    WritePositions(sc, Base(slot), combDelta, despread, n);
    ghost var row := Row(sc[..], slot, n);
    WrittenLists(c, LayerOf(slot), row, combDelta, despread);
    SlotAdded(c, count0, sc0, count[..], sc[..], slot, n);
  }

  lemma SlotAdded(c: Config, count0: seq<nat>, sc0: seq<nat>, count: seq<nat>, sc: seq<nat>, slot: nat, n: nat)
    requires c.layers <= MAX_LAYERS && PortsDistinct(c) && slot < 2 * c.layers && n <= N_PILOT_PAD
    requires FilledUpTo(c, count0, sc0, slot) && count == count0[slot := n] && |sc| == TABLE
    requires forall i :: 0 <= i < Base(slot) ==> sc[i] == sc0[i]
    requires forall i :: Base(slot) + n <= i < TABLE ==> sc[i] == sc0[i]
    requires forall i :: Base(slot) <= i < Base(slot) + n ==> sc[i] < 0x1_0000
    requires RowLists(c, LayerOf(slot), Row(sc, slot, n))
    ensures FilledUpTo(c, count, sc, slot + 1)
  {
    forall s: nat | s < slot + 1
      ensures SlotFilled(c, count, sc, s)
    {
      if s < slot {
        assert SlotFilled(c, count0, sc0, s);
        SlotStays(c, count0, sc0, count, sc, s);
      }
    }
  }

  method FillTable(c: Config, combDelta: seq<nat>, despread: seq<bool>) returns (count: array<nat>, sc: array<nat>)
    requires c.layers <= MAX_LAYERS && PortsDistinct(c) && GroupsOf(c, combDelta)
    requires |despread| == c.layers && forall k: nat :: k < c.layers ==> (despread[k] <==> Paired(c, k))
    ensures TableShaped(count[..], sc[..]) && Listed(c, count[..], sc[..]) && Padded(c, count[..], sc[..])
    ensures RestClear(c, count[..], sc[..])
  {
    count := new nat[COUNT_PAD](_ => 0);
    sc := new nat[TABLE](_ => 0);
    for layer := 0 to c.layers
      invariant FilledUpTo(c, count[..], sc[..], 2 * layer)
    {
      FillSlot(c, 2 * layer, combDelta[layer], despread[layer], count, sc);
      FillSlot(c, 2 * layer + 1, combDelta[layer], despread[layer], count, sc);
    }
    ghost var counts, scs := count[..], sc[..];
    forall slot: nat | slot < 2 * c.layers
      ensures SlotLists(c, counts, scs, slot) && SlotClear(counts, scs, slot)
    {
      assert SlotFilled(c, counts, scs, slot);
    }
  }

  /** Two of the fourteen symbols, found by counting bits and looking above the fourteenth. */
  method MaskSupported(mask: nat) returns (ok: bool, d: nat)
    ensures ok <==> NamesTwo(mask)
    ensures ok ==> d == Popcount(mask) == 2 && mask < 0x4000
  {
    d := Popcount16(mask);
    MaskTest(mask);
    ok := d == 2 && mask / 0x4000 == 0;
  }

  /** The fields the builder compares with what it supports. */
  method FieldsSupported(c: Config, rx: nat) returns (ok: bool)
    ensures ok <==> FieldsOk(c, rx)
  {
    ok := !(c.abi != ABI_VERSION || c.size < CONFIG_SIZE || c.layers == 0 || c.layers > MAX_LAYERS ||
            c.txPorts < c.layers || c.rxAntennas != rx || c.symbols != 14 || c.used != 1596 || c.padded != 1664 ||
            c.dmrsType != 1 || c.precoding != 0 || !ReservedIsZero(c));
  }

  /**
   The DMRS-LS profile builder: accepts exactly the supported configurations, and then lists every
   layer's pilot subcarriers, each row followed by clear padding.
   */
  method BuildCurrentProfile(c: Config, rx: nat)
    returns (status: Status, layout: LayoutWords, symbols: seq<nat>, count: seq<nat>, sc: seq<nat>)
    requires Widths(c)
    ensures status == if Supported(c, rx) then Ok else UnsupportedProfile
    ensures status == Ok ==> layout == CurrentLayout(c.layers)
    ensures status == Ok ==> |symbols| == 2 && symbols[0] < symbols[1]
    ensures status == Ok ==> forall s: nat :: s in symbols <==> s < 14 && BitAt(c.mask, s)
    ensures status == Ok ==> TableShaped(count, sc) && Listed(c, count, sc) && Padded(c, count, sc)
    ensures status == Ok ==> RestClear(c, count, sc)
  {
    status, layout, symbols, count, sc := UnsupportedProfile, CurrentLayout(0), [], [], [];
    var supported := FieldsSupported(c, rx);
    if !supported {
      return;
    }
    var named, d := MaskSupported(c.mask);
    if !named {
      return;
    }
    symbols := DmrsSymbols(c.mask);
    var ok, combDelta := ReadPorts(c);
    if !ok {
      return;
    }
    var despread;
    ok, despread := ChooseModels(c, combDelta);
    if !ok {
      return;
    }
    count, sc := BuildTable(c, combDelta, despread);
    var dataRe := (14 - d) * 1596;
    var stride := (dataRe + 127) / 128 * 128;
    layout := LayoutWords(d, 14 - d, dataRe, stride, c.layers * dataRe, c.layers * stride);
    status := Ok;
  }

  method BuildTable(c: Config, combDelta: seq<nat>, despread: seq<bool>) returns (count: seq<nat>, sc: seq<nat>)
    requires c.layers <= MAX_LAYERS && PortsDistinct(c) && GroupsOf(c, combDelta)
    requires |despread| == c.layers && forall k: nat :: k < c.layers ==> (despread[k] <==> Paired(c, k))
    ensures TableShaped(count, sc) && Listed(c, count, sc) && Padded(c, count, sc) && RestClear(c, count, sc)
  {
    var counts, scs := FillTable(c, combDelta, despread);
    count, sc := counts[..], scs[..];
  }

  // ---------- the natural contract ----------

  /** How a layer's pilots are observed: on the whole comb, or despread over pairs. */
  datatype ObservationModel = Comb798 | FdOcc399

  function ModelFor(n: nat): ObservationModel {
    if n == N_OCC_PILOT then FdOcc399 else Comb798
  }

  predicate ModelOk(count: seq<nat>, layer: nat)
    requires |count| == COUNT_PAD && layer < MAX_LAYERS
  {
    var n := count[2 * layer];
    (n == N_DMRS_RE || n == N_OCC_PILOT) && count[2 * layer + 1] == n
  }

  /** Classify every layer by its pilot count. */
  method DescribeObservationModels(count: seq<nat>, layers: nat, dmrsSymbols: nat)
    returns (status: Status, models: seq<ObservationModel>)
    requires |count| == COUNT_PAD
    ensures status == if layers == 0 || layers > 4 || dmrsSymbols != 2 then InvalidArgument
                      else if forall layer: nat :: layer < layers ==> ModelOk(count, layer) then Ok
                      else UnsupportedProfile
    ensures status == Ok ==> |models| == layers && forall layer: nat :: layer < layers ==>
      2 * layer < 16 && models[layer] == if count[2 * layer] == 399 then FdOcc399 else Comb798
  {
    models := [];
    if layers == 0 || layers > MAX_LAYERS || dmrsSymbols != N_DMRS {
      return InvalidArgument, models;
    }
    for layer := 0 to layers
      invariant |models| == layer && forall l: nat :: l < layer ==> ModelOk(count, l)
      invariant forall l: nat :: l < layer ==> models[l] == ModelFor(count[2 * l])
    {
      var n := count[layer * dmrsSymbols];
      if n != N_DMRS_RE && n != N_OCC_PILOT {
        assert !ModelOk(count, layer);
        return UnsupportedProfile, models;
      }
      if count[layer * dmrsSymbols + 1] != n {
        assert !ModelOk(count, layer);
        return UnsupportedProfile, models;
      }
      models := models + [ModelFor(n)];
    }
    status := Ok;
  }

  /** A slot is an arithmetic progression of its layer's step, from one of two starts, over clear padding. */
  ghost predicate SlotNatural(count: seq<nat>, sc: seq<nat>, slot: nat)
    requires TableShaped(count, sc) && slot < 8
  {
    var n, first := count[2 * LayerOf(slot)], sc[Base(slot)];
    && (n == 798 || n == 399) && count[slot] == n
    && (if n == 399 then first == 1 || first == 2 else first == 0 || first == 1)
    && Progression(Row(sc, slot, n), first, if n == 399 then 4 else 2)
    && SlotClear(count, sc, slot)
  }

  ghost predicate NaturalOk(count: seq<nat>, sc: seq<nat>, layers: nat)
    requires TableShaped(count, sc) && layers <= MAX_LAYERS
  {
    forall slot: nat :: slot < 2 * layers ==> SlotNatural(count, sc, slot)
  }

  /** Check one slot entry by entry. */
  method CheckSlotNatural(count: seq<nat>, sc: seq<nat>, slot: nat, model: ObservationModel) returns (ok: bool)
    requires TableShaped(count, sc) && slot < 8 && ModelOk(count, LayerOf(slot))
    requires model == ModelFor(count[2 * LayerOf(slot)])
    ensures ok <==> SlotNatural(count, sc, slot)
  {
    var n, base := count[slot], Base(slot);
    var first := sc[base];
    var step := if model == FdOcc399 then 4 else 2;
    var validFirst := if model == FdOcc399 then first == 1 || first == 2 else first == 0 || first == 1;
    ghost var row := Row(sc, slot, n);
    if !validFirst {
      return false;
    }
    for p := 0 to n
      invariant forall p' :: 0 <= p' < p ==> row[p'] == first + step * p'
    {
      if sc[base + p] != (first + step * p) % 0x1_0000 {
        assert row[p] != first + step * p;
        return false;
      }
    }
    for p := n to N_PILOT_PAD
      invariant forall i :: base + n <= i < base + p ==> sc[i] == 0
    {
      if sc[base + p] != 0 {
        return false;
      }
    }
    ok := true;
  }

  method ValidateNaturalLmmseContract(count: seq<nat>, sc: seq<nat>, layers: nat, dmrsSymbols: nat)
    returns (status: Status)
    requires TableShaped(count, sc)
    ensures status == if layers == 0 || layers > 4 || dmrsSymbols != 2 then InvalidArgument
                      else if NaturalOk(count, sc, layers) then Ok else UnsupportedProfile
  {
    var models;
    status, models := DescribeObservationModels(count, layers, dmrsSymbols);
    if status == InvalidArgument {
      return;
    }
    if status != Ok {
      var layer: nat :| layer < layers && !ModelOk(count, layer);
      var even := 2 * layer;
      assert !SlotNatural(count, sc, even) || !SlotNatural(count, sc, even + 1);
      return;
    }
    var slot := 0;
    while slot < 2 * layers
      invariant slot <= 2 * layers && forall s: nat :: s < slot ==> SlotNatural(count, sc, s)
    {
      assert ModelOk(count, LayerOf(slot));
      var ok := CheckSlotNatural(count, sc, slot, models[LayerOf(slot)]);
      if !ok {
        return UnsupportedProfile;
      }
      slot := slot + 1;
    }
  }
}
