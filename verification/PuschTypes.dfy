/** Host-side types shared by the PUSCH MIMO operators. */
module PuschTypes {

  const ABI_VERSION: nat := 1
  const CONFIG_SIZE: nat := 96
  const MAX_LAYERS: nat := 4

  /** The configuration fields the modelled operators look at. */
  datatype Config = Config(abi: nat, size: nat, flags: nat, layers: nat, txPorts: nat, rxAntennas: nat, qm: nat,
                           symbols: nat, fftSize: nat, numRb: nat, rbStart: nat, startSymbol: nat, dataSpan: nat,
                           used: nat, padded: nat, mask: nat, ports: seq<nat>, dataId: nat, rnti: nat, dmrsType: nat,
                           dmrsLength: nat, cdmGroups: nat, scid: nat, codeword: nat, precoding: nat,
                           reserved: seq<nat>)

  /** What the widths of the structure's fields guarantee. */
  predicate Widths(c: Config) {
    && c.mask < 0x1_0000 && c.rnti < 0x1_0000 && c.dataId < 0x1_0000
    && |c.ports| == 4 && forall i :: 0 <= i < 4 ==> c.ports[i] < 0x1_0000
  }

  predicate ReservedIsZero(c: Config) {
    forall i :: 0 <= i < |c.reserved| ==> c.reserved[i] == 0
  }

  /** Symbols and storage strides of the codeword. */
  datatype LayoutWords = LayoutWords(dmrsSymbols: nat, dataSymbols: nat, dataRe: nat, dataStride: nat, cwSymbols: nat,
                                     cwStride: nat)

  /** Two reference symbols, twelve data symbols of 1596 subcarriers, storage in multiples of 128. */
  function CurrentLayout(layers: nat): LayoutWords {
    LayoutWords(2, 12, 19152, 19200, layers * 19152, layers * 19200)
  }

  datatype Status = Ok | InvalidArgument | UnsupportedProfile | LayoutMismatch | ResourceTooSmall
                  | ObservationMismatch | WeightModelMismatch

  /** The one carrier profile the code-block operators support; layers and ports vary. */
  predicate FixedProfile(c: Config) {
    && c.abi == 1 && c.size >= 96 && c.flags == 0
    && c.layers in {1, 2, 3, 4} && c.txPorts in {1, 2, 4} && c.layers <= c.txPorts && c.rxAntennas == 64
    && c.qm == 8 && c.symbols == 14 && c.fftSize == 2048 && c.numRb == 133 && c.rbStart == 0
    && c.startSymbol == 0 && c.dataSpan == 14 && c.used == 1596 && c.padded == 1664
    && c.mask == 0x804 && c.dmrsType == 1 && c.dmrsLength == 1 && c.cdmGroups == 2 && c.scid in {0, 1}
    && c.codeword == 0 && c.precoding == 0 && ReservedIsZero(c)
  }
}
