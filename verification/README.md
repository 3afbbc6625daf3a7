# The coded-bit path of the PUSCH chain

This project models the part of the 5G NR uplink chain that carries coded bits: LDPC encoding, rate
matching, scrambling, descrambling, rate de-matching and LDPC decoding, with the Gold and reference-signal
sequences and the pilot-observation contract around it. Almost every stage exists in the repository as an
optimised form next to a simple one, and the project proves that they are the same function.

* **Decoder.** `CheckNode` and `LayeredDecoder` are the plain layered normalized min-sum decoder, with
  what every step of it keeps. `GraphPlan` to `DecodeBlocks` are the kernel: columns that stay in the
  coordinate of their last edge, delta-shift plans, edges partitioned by shift class, fused row pairs, two
  code blocks in one lane-interleaved buffer. `DecodeBlocks.Decode` ties the two together.
  `MessagePipe` is the asynchronous two-slot message store as a state machine over every interleaving, and
  `PipedDecoder` runs the plain decoder's row groups on it, `PipedKernel` the kernel's buffers: every interleaving
  decodes to the plain result.
* **Encoder.** `EncodeKernel`, `EncodeBlock` and `EncodeCores` compact shift tables in place, read rotations
  as offsets into doubled blocks and mask integer sums; `QcMatrix` and `EncodeSyndrome` prove zero syndrome
  against the decoder's table.
* **Rate matching.** `RateProfile` shares a codeword out among 143 code blocks, `CircularBuffer` is selection
  and accumulation, `RateMatch` the transmitter, `RateDematch` the scalar oracle, `RateDematchKernel` the
  tiled kernel, `RateDematchRows` what both leave in a row, value by value, `RateDematchAgreement` and
  `RateDematchRepeats` what makes the two equal.
* **Scrambling.** `Gold` has the recurrences, the 31-cell ring and the array form; `Planes`, `Scramble`,
  `Descramble` and `DescrambleSiso` the sign table, the transmitter, the oracle and both kernels.
* **Reference signals.** `DmrsSequence` proves that the GF(2) basis of the transmitter gives the receiver's
  sequence. `Pilots` says what a pilot table means, `MimoDmrsLs` is the producer with its natural contract and
  `ChannelEstLmmse` the consumer with its fingerprint (`Fnv`), each in its own arithmetic; `PilotAgreement`
  proves that they agree.
* **End to end.** `CodedBitPath` composes all of it.

Methods follow the original loops and in-place updates and are proved against specification functions and
predicates; the lemmas are about those.

## Assumptions

The shift tables are binary files that are not in the repository, so their structure is a precondition:
at most one circulant per block, shifts below Z, at least two edges and at most 19 per row
(`ValidCode`, `FitsWords`); equal degrees, disjoint columns and room in the workspace for fused rows
(`FusedRowsOk`); `[A B 0; C D I]` with `B * Bi = I` for the encoder (`EncoderFor`). Degrees are counted from
the table, which is how the decoder's degree input is prepared
(`chain/pusch_mimo_loopback/prepare_decoder_standard.py:67`).

The kernel's degree switch has cases for 3 to 10 and 19 only and would skip the reduction of a row of any other
degree. Rows of base graph 1 have only these degrees; the model's reduction, and so `CheckKernel.CheckNodes` and
`DecodeBlocks.Decode`, speaks for every degree from 2 to 19, that is, for a switch with a case for each degree
the table contains.

Posteriors are `real`. The int8 message cast is a parameter `Q` with nothing assumed of it, except that it
moves values toward zero where bits are claimed to be correct. A sign of zero counts as positive, as in the
kernel's comparison. The decoder kernel, as compiled, is fixed to Z = 384; the plain decoder, row and
column counts, degrees, batch and iteration count are arbitrary. The number of iterations is at least one.

What a 16-bit vector multiplication does beyond its range is not visible in the code, so it is a parameter:
wrap-around or saturation. Under saturation both kernels equal their oracles. Under wrap-around a scaled value
differs from the oracle's exactly outside the ranges of `RateDematch.WrappingAgreesIff`, 4096 being the first; the
de-matched arrays are equal if no valid symbol is such a value, and only if, where no position of a circular
buffer is visited twice (`RateDematchAgreement.KernelIsOracle` and `KernelIsOracleIff`), that is, where slots times
layers is at most 23 (`OneTurnIff`), as in the loopback chain's batches. In every other layout some codeword overflows
and has equal arrays (`RateDematchRepeats.AgreementDecidesIff`). The descrambled arrays differ exactly when a valid
symbol is -32768 with sign -1.

Up to cell identity 1023 all three formulas of the scrambler's initial value agree (`Scramble.CinitsAgree`). From 1024
to 0x3FFF the 0x3FF mask of the single-layer chain always matters; from 0x4000 on the receivers' formulas can coincide,
when the identity's high bits fall on codeword or RNTI bits that are set already (`Scramble.MaskIrrelevantIff`).

The decoder's comment that a message slot is reused only after one complete intervening row relies on an even
number of row groups, because the slot sequence restarts with every pass. `MessagePipe` shows that the wait on
the slot's flag, not that distance, is what protects the slot, for any number of groups.

The two validators of pilot tables are not equivalent: unused table entries are checked by the natural contract
only (`PilotAgreement.ObservedIsNaturalIff`). `BuildWeightModel` does not compare the counts with the table's
storage: a slot may announce up to 65535 positions, and what lies behind the table is then hashed too. The model
takes that memory as a parameter (`behind`), so its contract holds for every count.

The pilot fingerprint is FNV-1a with the 64-bit prime, but it starts from 1469598103934665603 instead of the standard
offset basis 14695981039346656037; the model follows the code (`Fnv.FirstHashes`).

## Model

| member | source | states |
|---|---|---|
| CodedBitPath.EveryTransmittedBitReturns | fec/ldpc_decode/ldpc_decode_kernel.cpp:499-783 | For all information words, layers 1-4, slots 1-23, iteration counts and casts toward zero: if every delivered soft value is nonzero with the sign of its scrambled bit, every transmitted, unpunctured information bit is decoded correctly through encode, match, scramble, descramble, de-match and decode |
| CodedBitPath.Loopback | fec/ldpc_decode/ldpc_decode_kernel.cpp:499-783 | Transmitter and receiver around any channel that delivers nonzero soft values of the right sign: every transmitted, unpunctured information bit of every block returns |
| CodedBitPath.Transmit | chain/pusch_mimo_loopback/tx_prefix_rank1.py:43-78 | Produces a codeword, scrambled with the standard's sequence for RNTI and cell, whose planes are the interleaved circular-buffer bits of encodings of the information blocks |
| CodedBitPath.Receive | fec/rate_dematch_mimo/rate_dematch_mimo_kernel.cpp:96-142 | For a supported configuration, sign table, descrambled planes, de-matched rows and decoded blocks each meet the specification of their stage, chained |
| CodedBitPath.BlockHeard | fec/rate_dematch_mimo/rate_dematch_mimo_kernel.cpp:106-134 | Every value the de-matcher accumulates for a block has the sign of the coded bit at its circular position |
| CodedBitPath.InputHeard | fec/rate_dematch_mimo/rate_dematch_mimo.cpp:192-197 | Every decoder input agrees with the codeword, is zero on the punctured columns and nonzero on transmitted positions |
| CodedBitPath.TransmittedIff | chain/pusch_mimo_loopback/tx_prefix_rank1.py:43-53 | A buffer position is transmitted exactly when it is below the number of coded bits |
| CodedBitPath.SentIsCodeword | chain/pusch_mimo_loopback/prepare_decoder_standard.py:49-60 | What the encoder sends is a codeword of the table the decoder uses |
| CheckNode.KernelMessageIsTextbook | fec/ldpc_decode/ldpc_decode_kernel.cpp:247-300 | For any degree of at least two, any edge order and any ties: the two-register scan with replacement of the equal minimum gives 0.75 times the product of the other signs times the least other magnitude |
| CheckNode.ScanFindsTwoLeast | fec/ldpc_decode/ldpc_decode_kernel.cpp:264-281 | The registers hold the two least magnitudes, counted with multiplicity |
| CheckNode.ScanSignIsParity | fec/ldpc_decode/ldpc_decode_kernel.cpp:264-281 | The sign register is the parity of the negative edges |
| CheckNode.SelectedMinimumIsLeastOther | fec/ldpc_decode/ldpc_decode_kernel.cpp:285-299 | Taking the second minimum exactly where the edge equals the first gives the least magnitude of the other edges |
| CheckNode.MessageIsScaledLeast | fec/ldpc_decode/ldpc_decode_kernel.cpp:285-299 | A message is 0.75 times an offer of another column in size and of none smaller; it is negative exactly when an odd number of the other offers is negative and none is zero |
| LayeredDecoder.ShiftsAreRemainders | chain/pusch_mimo_loopback/prepare_decoder_standard.py:38-46 | BitOf and CheckOf are addition and subtraction of the shift modulo z, and inverse to each other |
| LayeredDecoder.Conservation | fec/ldpc_decode/ldpc_decode_kernel.cpp:562-667 | At every step each posterior is its channel value plus the latest stored message of every incident edge plus the residues m - Q(m), and nothing else |
| LayeredDecoder.StepConserves | fec/ldpc_decode/ldpc_decode_kernel.cpp:628-667 | One row step moves a posterior by what it moves the incident messages plus one residue |
| LayeredDecoder.RunAgrees | fec/ldpc_decode/ldpc_decode_kernel.cpp:562-657 | If the channel agrees with a codeword and Q moves toward zero, every stored message and residue agrees with it after any number of steps |
| LayeredDecoder.NoBitFlips | fec/ldpc_decode/ldpc_decode_kernel.cpp:247-300 | After any number of row steps every posterior still agrees with the codeword and is no smaller in magnitude than its channel value |
| LayeredDecoder.MessageAgrees | fec/ldpc_decode/ldpc_decode_kernel.cpp:264-299 | If all offers agree with a word of even parity on the check, so does every message sent back |
| GraphPlan.PackTable | fec/ldpc_decode/main.cpp:157-172 | The packed rows list exactly the nonnegative entries of each table row, in column order |
| GraphPlan.LastShifts | fec/ldpc_decode/ldpc_decode_kernel.cpp:416-426 | last_shift is the coordinate in which one pass over the rows leaves every column |
| GraphPlan.LastCoordsAreSteady | fec/ldpc_decode/ldpc_decode_kernel.cpp:428-432 | A pass that starts in the last coordinates ends in them: later iterations share one plan |
| GraphPlan.PartitionRow | fec/ldpc_decode/ldpc_decode_kernel.cpp:455-478 | Both tables receive the same stable partition by steady shift class, and the split word names its ends |
| GraphPlan.PartitionReorders | fec/ldpc_decode/ldpc_decode_kernel.cpp:455-478 | The partition is a permutation of the words: none is lost or repeated |
| GraphPlan.PlanOneRow | fec/ldpc_decode/ldpc_decode_kernel.cpp:433-479 | Plans one row and advances both coordinate trackers to the next row |
| GraphPlan.BuildPlan | fec/ldpc_decode/ldpc_decode_kernel.cpp:397-479 | First and steady tables, splits and last coordinates for every table that fits the packed words |
| GraphPlan.PlanEntry | fec/ldpc_decode/ldpc_decode_kernel.cpp:434-453 | Every plan word names an incident column and the rotation from where the pass has left it to this row |
| GraphPlan.PlanClasses | fec/ldpc_decode/ldpc_decode_kernel.cpp:455-478 | Every position of a row is in the shift class its side of the split promises |
| GraphPlan.BuiltPlanOk | fec/ldpc_decode/ldpc_decode_kernel.cpp:397-479 | Every built plan visits each incident column of each row once, with the right rotations on cold and steady passes |
| ShiftKernel.ShiftZero | fec/ldpc_decode/ldpc_decode_kernel.cpp:95-100 | One copy moves all lanes of an item unrotated and nothing else |
| ShiftKernel.ShiftAligned | fec/ldpc_decode/ldpc_decode_kernel.cpp:102-123 | Two block copies rotate all lanes by a multiple of sixteen |
| ShiftKernel.ShiftVector | fec/ldpc_decode/ldpc_decode_kernel.cpp:125-137 | Two vector copies per lane rotate by any shift |
| ShiftKernel.ShiftDynamic | fec/ldpc_decode/ldpc_decode_kernel.cpp:139-151 | The dispatch rotates by the shift whatever its class |
| GatherKernel.GatherRowDispatch | fec/ldpc_decode/ldpc_decode_kernel.cpp:155-193 | A row gathered in three class ranges is gathered edge by edge |
| GatherKernel.GatherRowDynamic | fec/ldpc_decode/ldpc_decode_kernel.cpp:200-220 | The cold gather chooses the routine per edge with the same result |
| GatherKernel.GatherGroup | fec/ldpc_decode/ldpc_decode_kernel.cpp:587-624 | All rows and lanes of a group are gathered, each edge rotated by its plan word |
| GatherKernel.ScatterGroup | fec/ldpc_decode/ldpc_decode_kernel.cpp:692-710 | Every edge becomes its column's resident value, and columns outside the group keep theirs |
| CheckKernel.ScanEdge | fec/ldpc_decode/ldpc_decode_kernel.cpp:264-281 | One edge of the unrolled reduction, on all lanes at once, is one step of the scan |
| CheckKernel.CheckNodes | fec/ldpc_decode/ldpc_decode_kernel.cpp:248-300 | After the reduction every element of every edge holds the kernel form of its message |
| CheckKernel.UpdatePosteriors | fec/ldpc_decode/ldpc_decode_kernel.cpp:628-658 | Subtract, reduce and multiply-add leave every edge at its offer plus its message |
| CheckKernel.StoreMessages | fec/ldpc_decode/ldpc_decode_kernel.cpp:663-667 | The cast stores Q of every message |
| MessageKernel.LoadGroup | fec/ldpc_decode/ldpc_decode_kernel.cpp:567-581 | The strided reload interleaves the rows and blocks of the group from contiguous global memory |
| MessageKernel.StoreGroup | fec/ldpc_decode/ldpc_decode_kernel.cpp:668-684 | The strided store is its inverse and leaves other rows' messages alone |
| RowKernel.RowGroup | fec/ldpc_decode/ldpc_decode_kernel.cpp:536-713 | One row group: reload, gather, check nodes, posteriors, message store, scatter |
| RowRefinement.RelativeShift | fec/ldpc_decode/ldpc_decode_kernel.cpp:444-447 | Rotating a column resident in coordinate s by the delta shows it in coordinate s' |
| RowRefinement.LaneComputes | fec/ldpc_decode/ldpc_decode_kernel.cpp:562-667 | In every lane the gathered, differenced and reduced edge values are the plain offers and messages of the row |
| GroupRefinement.SingleRowRefines | fec/ldpc_decode/ldpc_decode_kernel.cpp:536-713 | An unfused group takes a lane from the plain state at its row to the plain state at the next |
| GroupRefinement.FusedPairRefines | fec/ldpc_decode/ldpc_decode_kernel.cpp:36-42 | A fused pair, gathered before either is scattered, equals its two plain row steps in sequence when degrees match and columns are disjoint |
| DecodeKernel.GroupAdvances | fec/ldpc_decode/ldpc_decode_kernel.cpp:536-713 | One group takes every lane one or two plain row steps further |
| DecodeKernel.Pass | fec/ldpc_decode/ldpc_decode_kernel.cpp:533-716 | One pass over all rows is as many plain row steps as the table has rows, in every lane |
| DecodeKernel.StepsInIsProduct | fec/ldpc_decode/ldpc_decode_kernel.cpp:533-716 | n passes are n times as many row steps as the table has rows |
| DecodeKernel.Iterate | fec/ldpc_decode/ldpc_decode_kernel.cpp:532-716 | All iterations: every lane ends in the plain state, each column in its last coordinate |
| DecodeExport.LoadChannels | fec/ldpc_decode/ldpc_decode_kernel.cpp:503-521 | Input blocks are interleaved by column and lane |
| DecodeExport.RestoreColumn | fec/ldpc_decode/ldpc_decode_kernel.cpp:303-311 | Rotation by the inverse anchor puts one column of every lane back in variable order |
| DecodeExport.RestoreAll | fec/ldpc_decode/ldpc_decode_kernel.cpp:718-725 | The final rotations restore variable order in all columns |
| DecodeExport.Rint | fec/ldpc_decode/ldpc_decode_kernel.cpp:735 | Rounds to a nearest integer, to the even one on ties |
| DecodeExport.ClampIsNearest | fec/ldpc_decode/ldpc_decode_kernel.cpp:727-732 | Clamping moves a posterior to the nearest value of the public range |
| DecodeExport.ExportLane | fec/ldpc_decode/ldpc_decode_kernel.cpp:727-750 | Block after block, every column of a lane is exported; `DecodeBlocks.OutputIsNearest` says what the exported values are |
| DecodeExport.DecideLane | fec/ldpc_decode/ldpc_decode_kernel.cpp:752-783 | Hard bits are the signs of the exported posteriors of the information columns, read back as integers |
| DecodeBlocks.OutputIsNearest | fec/ldpc_decode/ldpc_decode_kernel.cpp:727-735 | Every exported soft value is the integer from -5120 to 5120 nearest to the plain posterior of its position, the even one of two equally near |
| DecodeBlocks.OutputIsDecided | fec/ldpc_decode/ldpc_decode_kernel.cpp:752-767 | Every hard bit is one exactly where its soft value is negative, otherwise zero |
| DecodeBlocks.DecodeGroup | fec/ldpc_decode/ldpc_decode_kernel.cpp:499-785 | One or two code blocks in one lane-interleaved buffer decode as each would alone |
| DecodeBlocks.SharesTile | fec/ldpc_decode/ldpc_decode_kernel.cpp:497-498 | The cores' shares are consecutive and cover all blocks |
| DecodeBlocks.Decode | fec/ldpc_decode/ldpc_decode_kernel.cpp:397-786 | The whole kernel on any table, input, lane count and iteration count outputs the plain layered decoder's result for every block, exported as `OutputIsNearest` and `OutputIsDecided` say |
| DecodeBlocks.DecodedByAllPasses | fec/ldpc_decode/ldpc_decode_kernel.cpp:499-716 | Every decoded block is exported from the plain state after iterations times rows steps from its own input, column by column |
| DecodeBlocks.DecodesSentBits | fec/ldpc_decode/ldpc_decode_kernel.cpp:752-783 | A decoded bit is the codeword's wherever its channel value was nonzero and the channel agreed |
| MessagePipe.StepKeeps | fec/ldpc_decode/ldpc_decode_kernel.cpp:532-690 | Every program or store step of every interleaving keeps the invariant |
| MessagePipe.SlotNeverOverwritten | fec/ldpc_decode/ldpc_decode_kernel.cpp:550-560 | A slot is written only when no store from it is running or unacknowledged |
| MessagePipe.ReloadSeesPreviousPass | fec/ldpc_decode/ldpc_decode_kernel.cpp:562-583 | Whatever a pass reloads for a group is exactly what the pass before issued for it |
| MessagePipe.FlagsConsumedBeforeExport | fec/ldpc_decode/ldpc_decode_kernel.cpp:735-752 | At export no store is running, no flag is raised, and global memory holds the last issued messages |
| MessagePipe.NoDeadlock | fec/ldpc_decode/ldpc_decode_kernel.cpp:550-560 | Before the export some step can always be taken, whatever messages come next |
| MessagePipe.EveryStepProgresses | fec/ldpc_decode/ldpc_decode_kernel.cpp:532-716 | Every step lowers the number of steps left |
| MessagePipe.EveryRunExports | fec/ldpc_decode/ldpc_decode_kernel.cpp:532-716 | Every run has at most five steps per visit of a group and one state more, and a run that cannot go on has reached the export |
| PipedDecoder.StepStaysOnTrack | fec/ldpc_decode/ldpc_decode_kernel.cpp:532-716 | Every step of every interleaving keeps posteriors, slot and everything issued equal to the plain decoder's |
| PipedDecoder.ComputesPlain | fec/ldpc_decode/ldpc_decode_kernel.cpp:562-667 | A group that reads the plain messages from its slot computes exactly the plain state after it, whatever other groups hold |
| PipedDecoder.EveryInterleavingDecodes | fec/ldpc_decode/ldpc_decode_kernel.cpp:532-716 | However stores interleave with groups, at the export the posteriors are those of the plain decoder after all passes |
| PipedDecoder.EveryInterleavingSends | fec/ldpc_decode/ldpc_decode_kernel.cpp:562-690 | Whatever is issued or reloaded is what the plain decoder holds for those rows after that pass, or the pass before |
| PipedDecoder.EveryRunDecodes | fec/ldpc_decode/ldpc_decode_kernel.cpp:532-752 | Every run is finite, and one that cannot go on has reached the export with the plain posteriors |
| PipedKernel.GroupIsCast | fec/ldpc_decode/ldpc_decode_kernel.cpp:562-713 | The group with synchronous stores is a cast of what its reload left in the slot: it computes from the slot alone |
| PipedKernel.StepFollowsKernel | fec/ldpc_decode/ldpc_decode_kernel.cpp:532-716 | On the lane-interleaved buffers, every step of every interleaving follows the kernel with synchronous stores, whose memory is global memory with all running stores finished |
| PipedKernel.EveryKernelRunDecodes | fec/ldpc_decode/ldpc_decode_kernel.cpp:532-725 | Every run on the buffers is finite, and at the export every lane holds the plain posteriors after all passes, each column in its last coordinate |
| PipedDecoder.KernelTiles | fec/ldpc_decode/ldpc_decode_kernel.cpp:36-42 | The kernel's fused and single rows are such a grouping of all rows |
| EncodeKernel.CompactRow | fec/ldpc_encode/ldpc_encode_kernel.cpp:56-73 | In-place packing leaves exactly the row's circulants as offsets, then -1; the write cursor never passes the read |
| EncodeKernel.CompactShiftRows | fec/ldpc_encode/ldpc_encode_kernel.cpp:50-74 | Every row of the table is compacted and no row disturbs another |
| EncodeKernel.TermsAreEntries | fec/ldpc_encode/ldpc_encode_kernel.cpp:58-66 | A host row of one, two or four entries a column stands for each circulant as often as its column holds the shift |
| EncodeKernel.OffsetRotates | fec/ldpc_encode/ldpc_encode_kernel.cpp:82-87 | A plain offset into a doubled block reads the block rotated modulo Z |
| EncodeKernel.WrapKeepsParity | fec/ldpc_encode/ldpc_encode_kernel.cpp:82-87 | 16-bit wrap-around never changes the masked bit |
| EncodeKernel.AccumulatePackedEdges | fec/ldpc_encode/ldpc_encode_kernel.cpp:76-88 | The accumulated block has the parity of the circulant sum from the first edge to the first -1 |
| EncodeKernel.SpmvBlockRow | fec/ldpc_encode/ldpc_encode_kernel.cpp:90-105 | Copy, integer accumulation and mask give the GF(2) product of the block row |
| EncodeBlock.SpmvBlockRowCD | fec/ldpc_encode/ldpc_encode_kernel.cpp:107-136 | The joint row starts from C, from D or from zero and gives the GF(2) sum of both products |
| EncodeBlock.SpmvRows | fec/ldpc_encode/ldpc_encode_kernel.cpp:251-262 | A whole matrix product, doubled for the next stage |
| EncodeBlock.EncodeOne | fec/ldpc_encode/ldpc_encode_kernel.cpp:229-309 | One block's output is its codeword without the first two columns |
| EncodeCores.LoadTables | fec/ldpc_encode/ldpc_encode_kernel.cpp:211-222 | The compacted tables hold the host tables' circulants |
| EncodeCores.EncodeAll | fec/ldpc_encode/ldpc_encode_kernel.cpp:227-310 | Over the four cores every block's output is its codeword without the first two columns |
| QcMatrix.EvenRowVanishes | fec/ldpc_encode/scripts/ldpc_ref.py:162-184 | Circulants that occur in pairs cancel over GF(2) |
| QcMatrix.ProductActs | fec/ldpc_encode/scripts/ldpc_ref.py:188-215 | Multiplying by two quasi-cyclic matrices in turn is multiplying by their product |
| QcMatrix.InverseUndoes | fec/ldpc_encode/scripts/ldpc_ref.py:249-254 | When B times Bi is the identity, B undoes Bi on every vector of bits |
| EncodeSyndrome.CheckIsParity | chain/pusch_mimo_loopback/prepare_decoder_standard.py:53-58 | The number of ones a check meets is the sum of the bits its row picks |
| EncodeSyndrome.RowSyndrome | chain/pusch_mimo_loopback/prepare_decoder_standard.py:53-58 | XOR over the nonempty blocks is the parity of the picked bits |
| EncodeSyndrome.SyndromeIsZero | chain/pusch_mimo_loopback/prepare_decoder_standard.py:52-60 | The syndrome loop accepts exactly the codewords |
| EncodeSyndrome.ZeroSyndrome | fec/ldpc_encode/ldpc_encode_kernel.cpp:247-285 | For every information word and every table [A B 0; C D I] with B times Bi the identity, information and both parity parts satisfy every check |
| RateProfile.BuildCurrentProfile | fec/rate_dematch_mimo/rate_dematch_mimo.cpp:69-133 | Status of every configuration and slot count (`AcceptedCarrier` lists the accepted ones); an accepted profile partitions the codeword, and the sum check never fails |
| RateProfile.DescribedPartition | fec/rate_dematch_mimo/rate_dematch_mimo.cpp:94-107 | Descriptors are consecutive, disjoint, nondecreasing in size and end with the last symbol |
| RateProfile.DescriptorIs | fec/rate_dematch_mimo/rate_dematch_mimo.cpp:90-107 | Every descriptor in closed form: size, start, buffer length and first symbol of each of the 143 blocks |
| RateProfile.SizesWithinOneQuantum | fec/rate_dematch_mimo/rate_dematch_mimo.cpp:90-100 | Sizes differ by at most one quantum |
| RateProfile.UnitsCoverAll | fec/rate_dematch_mimo/rate_dematch_mimo.cpp:94-100 | The units of the blocks sum to the units of the slots |
| RateProfile.SymbolsCoverAll | fec/rate_dematch_mimo/rate_dematch_mimo.cpp:108-112 | The symbols of the blocks sum to the codeword's symbols |
| RateProfile.BlockSymbolsBound | fec/rate_dematch_mimo/rate_dematch_mimo.cpp:94-107 | Every block is nonempty and at most four turns of its buffer |
| RateProfile.RunIsContiguous | fec/rate_dematch_mimo/rate_dematch_mimo_kernel.cpp:112-121 | Symbols of one slot are stored contiguously |
| RateProfile.IndexInStorage | fec/rate_dematch_mimo/rate_dematch_mimo.cpp:181-187 | Every symbol and the rest of its plane lie inside the input |
| CircularBuffer.VisitsExactly | fec/rate_dematch_mimo/rate_dematch_mimo.cpp:188-189 | Visits of a position, times the buffer length, equals steps taken corrected by the distances to it |
| CircularBuffer.AtMostFourVisits | fec/rate_dematch_mimo/rate_dematch_mimo_kernel.cpp:108-134 | Four turns visit a position at most four times, and at least once from one turn on |
| CircularBuffer.AccumulatorFits | fec/rate_dematch_mimo/rate_dematch_mimo_kernel.cpp:131 | The 16-bit accumulator never overflows at any point |
| CircularBuffer.FoldRun | fec/rate_dematch_mimo/rate_dematch_mimo_kernel.cpp:114-131 | A run that does not wrap adds to consecutive positions, each value once |
| CircularBuffer.MatchFoldAdjoint | chain/pusch_mimo_loopback/tx_prefix_rank1.py:43-53 | Correlating transmitted bits with received values is correlating the buffer with the folded values |
| CircularBuffer.FoldAgrees | fec/rate_dematch_mimo/rate_dematch_mimo.cpp:190-191 | Values that agree with the transmitted bits fold to values that agree with the buffer, at least once per visit |
| RateMatch.Segments | chain/pusch_mimo_loopback/tx_prefix_rank1.py:32-40 | The transmitter's segment sizes are the receiver's |
| RateMatch.MatchRate | chain/pusch_mimo_loopback/tx_prefix_rank1.py:43-53 | Every plane is the serial concatenation of the blocks' circular selections, slot by slot, tails zero |
| RateMatch.MatchedCarries | chain/pusch_mimo_loopback/tx_prefix_rank1.py:43-53 | The value the de-matcher reads for symbol j of a plane is the bit its circular position names |
| RateMatch.PlaneBitIs | chain/pusch_mimo_loopback/tx_prefix_rank1.py:43-53 | Symbol j of a block's share of a bit plane is coded bit (bit * eq + j) mod 25344 |
| RateMatch.TailIsZero | chain/pusch_mimo_loopback/tx_prefix_rank1.py:43-53 | Behind the valid symbols every plane of every slot is zero |
| RateDematch.WrappingAgreesIff | fec/rate_dematch_mimo/rate_dematch_mimo_kernel.cpp:128-130 | A wrapping 16-bit multiplication scales like the oracle exactly on the listed ranges of inputs |
| RateDematch.SaturatingAgrees | fec/rate_dematch_mimo/rate_dematch_mimo_kernel.cpp:128-130 | A saturating one always does |
| RateDematch.WrappingFlipsSign | fec/rate_dematch_mimo/rate_dematch_mimo_kernel.cpp:128-130 | The input 4096 becomes the strongest value of the wrong sign under wrap-around |
| RateDematch.ReferenceBlock | fec/rate_dematch_mimo/rate_dematch_mimo.cpp:170-198 | One block of the oracle writes its row from the fold of its received values and touches no other row; `RateDematchRows` says what the row holds |
| RateDematchKernel.LoadTile | fec/rate_dematch_mimo/rate_dematch_mimo_kernel.cpp:119-127 | The read starts at the multiple of sixteen below the run, stays inside the tile buffer and the input and holds the run |
| RateDematchKernel.TileAdded | fec/rate_dematch_mimo/rate_dematch_mimo_kernel.cpp:128-132 | Adding a tile is the next steps of the fold |
| RateDematchKernel.NextRun | fec/rate_dematch_mimo/rate_dematch_mimo_kernel.cpp:110-118 | Every run is nonempty and never straddles the plane, the slot's valid symbols or the circular wrap |
| RateDematchKernel.RunPlane | fec/rate_dematch_mimo/rate_dematch_mimo_kernel.cpp:108-135 | The tile loop folds a whole plane |
| RateDematchKernel.RunBlock | fec/rate_dematch_mimo/rate_dematch_mimo_kernel.cpp:103-141 | One block's row is the same function of its received values; `RateDematchRows` says what it holds |
| RateDematchKernel.KernelBlockReady | fec/rate_dematch_mimo/rate_dematch_mimo_kernel.cpp:97-102 | The kernel's descriptor rejections are unreachable for accepted profiles |
| RateDematchKernel.RateDematchOnCores | fec/rate_dematch_mimo/rate_dematch_mimo_kernel.cpp:96-142 | All rows, each written by the core that owns it |
| RateDematchKernel.ReferenceRateDematch | fec/rate_dematch_mimo/rate_dematch_mimo.cpp:153-201 | Status of every configuration, layout and descriptor table, and the rows of the accepted ones |
| RateDematchRows.RowIsClipped | fec/rate_dematch_mimo/rate_dematch_mimo.cpp:192-198 | A row is zero on its first 768 positions; every other entry lies in -5120..5120 and is the sum of its values where that lies in the range, the end of the range it exceeds otherwise |
| RateDematchRows.FoldIsFourTurns | fec/rate_dematch_mimo/rate_dematch_mimo.cpp:175-191 | The sum at position k is that of the values k, k + 25344, k + 50688 and k + 76032 of the block |
| RateDematchRows.ReceivedIsSample | fec/rate_dematch_mimo/rate_dematch_mimo.cpp:178-191 | Value bit * eq + j of a block is the scaled symbol j of its share of a bit plane |
| RateDematchRows.SampleIsStored | fec/rate_dematch_mimo/rate_dematch_mimo.cpp:181-187 | A symbol is read at slot * 8 * stride + bit * stride + remainder |
| RateDematchRows.ScaledIsEightfold | fec/rate_dematch_mimo/rate_dematch_mimo.cpp:62-67 | Every 16-bit input is multiplied by eight and clipped to 5120; a wrapping multiplication does the same with the input reduced modulo 8192 |
| RateDematchRows.OutputIsRows | fec/rate_dematch_mimo/rate_dematch_mimo_kernel.cpp:96-142 | The output is 143 rows of 26112 values, each of its own block from position 0, of at most four turns |
| RateDematchRows.RepeatedPositionIsClipped | fec/rate_dematch_mimo/rate_dematch_mimo.cpp:192-198 | Two layers and 23 slots of samples 640: position 0 is visited twice, the sum is 10240 and the entry 5120 |
| RateDematchAgreement.KernelIsOracle | fec/rate_dematch_mimo/rate_dematch_mimo_kernel.cpp:96-142 | For every layout: tiled kernel and scalar oracle produce the same array if every valid symbol scales alike; tails do not matter |
| RateDematchAgreement.KernelIsOracleIff | fec/rate_dematch_mimo/rate_dematch_mimo_kernel.cpp:96-142 | Where no position is visited twice the arrays are equal exactly when every valid symbol scales alike |
| RateDematchAgreement.OneTurnIff | fec/rate_dematch_mimo/rate_dematch_mimo.cpp:90-107 | No position is visited twice exactly when slots times layers is at most 23, as in the loopback chain's batches of 23, 7, 3 and 2 slots for ranks 1 to 4 |
| RateDematchRepeats.RepetitionHides | fec/rate_dematch_mimo/rate_dematch_mimo_kernel.cpp:96-142 | In every other layout two wrapped symbols one turn apart cancel: a codeword exists that overflows and has equal arrays |
| RateDematchRepeats.AgreementDecidesIff | fec/rate_dematch_mimo/rate_dematch_mimo_kernel.cpp:96-142 | Equal arrays mean that no valid symbol was wrapped exactly in the layouts whose slots times layers is at most 23 |
| RateDematchAgreement.KernelFlipsSign | fec/rate_dematch_mimo/rate_dematch_mimo_kernel.cpp:128-130 | Where no position is visited twice, a valid symbol of 4096 comes out of a wrapping kernel as -5120, out of the oracle as 5120 |
| Gold.GoldArray | chain/pusch_mimo_loopback/tx_prefix_rank1.py:56-66 | Index k holds the sum of both registers at k + 1600 |
| Gold.RegistersAreStandard | chain/pusch_mimo_loopback/tx_prefix_rank1.py:57-65 | The registers of section 5.2.1 of TS 38.211: a one and thirty zeros in the first, bit n of the initial value as its quotient by 2^n modulo two in the second; each later element is the sum of those 28 and 31 places before, or 28 to 31 |
| Gold.RingAdvances | fec/descramble_mimo/descramble_mimo.cpp:74-85 | Overwriting the oldest cell with the feedback advances the 31-cell ring by one |
| Gold.GoldGenerator.constructor | fec/descramble_mimo/descramble_mimo.cpp:55-64 | Loads both registers from the initial value and takes 1600 steps |
| Gold.GoldGenerator.Step | fec/descramble_mimo/descramble_mimo.cpp:74-85 | Keeps the ring and takes one step |
| Gold.GoldGenerator.Next | fec/descramble_mimo/descramble_mimo.cpp:66-71 | Each call returns the sum of both registers at the number of steps taken, and takes one step: the k-th call returns element k |
| Scramble.StreamsInverse | fec/descramble_mimo/descramble_mimo_kernel.cpp:25-28 | The kernels' stream formula is the table 0, 4, 1, 5, 2, 6, 3, 7 of the oracle and the inverse of the transmitter's order 0, 2, 4, 6, 1, 3, 5, 7 |
| Scramble.FieldsDoNotOverlap | fec/descramble_mimo/descramble_mimo.cpp:171-176 | RNTI, codeword and identity fields of the initial value do not overlap: the bitwise formula is the sum of section 6.3.1.1 of TS 38.211 |
| Bits.OrIsBitwise | fec/descramble_mimo/descramble_mimo.cpp:173-176 | Each bit of a bitwise or is set if either operand's is |
| Scramble.CinitsAgree | chain/pusch_siso_rx_chain/rx_chain.cpp:335-336 | For 16-bit RNTIs and cell identities up to 1023 both receivers' formulas are the standard's for every codeword, and the transmitter's is the standard's for the first |
| Scramble.MaskIrrelevantIff | chain/pusch_siso_rx_chain/rx_chain.cpp:335-336 | For 16-bit identities both receivers have the same initial value exactly when none of bits 10 to 13 of the identity is set, and bits 14 and 15, if set, fall on a set codeword or RNTI bit |
| Scramble.BuildGoldSign | fec/descramble_mimo/descramble_mimo.cpp:155-186 | Exact status; then every valid element carries the sign of its own element of the standard's sequence in slot, symbol, bit order; tails are 1 and take none |
| Scramble.SignIsSequence | fec/descramble_mimo/descramble_mimo.cpp:177-185 | The sign of symbol i's bit is minus one exactly if sequence element 8 * (slot * valid + i) + bit is set; tails are one |
| Planes.ElementIsStored | fec/descramble_mimo/descramble_mimo.cpp:179-184 | Element i of bit plane bit of a slot is stored at (8 * slot + bit) * stride + i |
| Scramble.BakeGoldSign | chain/pusch_siso_rx_chain/rx_chain.cpp:333-355 | The array form fills the same table, with identities cut to 16 and 10 bits |
| Scramble.SignTableUnique | fec/descramble_mimo/descramble_mimo.cpp:172-184 | The table is determined by the initial value and the layout, so ring and array forms agree |
| Descramble.ScrambleBits | chain/pusch_mimo_loopback/tx_prefix_rank1.py:69-78 | Every stream of every slot is scrambled with the standard's sequence for RNTI and cell; `StreamCarriesBit` says which bit and which element |
| Descramble.StreamCarriesBit | chain/pusch_mimo_loopback/tx_prefix_rank1.py:69-78 | Physical stream h + 4p carries NR bit 2h + p plus sequence element 8 * (slot * valid + i) + 2h + p modulo two; tails are zero |
| Descramble.ProductsAgreeIff | fec/descramble_mimo/descramble_mimo_kernel.cpp:96 | Kernel and oracle products differ only for -32768 times -1 under wrap-around |
| Descramble.ProductKeepsMagnitude | fec/descramble_mimo/descramble_mimo.cpp:93-99 | A sign keeps the magnitude except of -32768 |
| Descramble.ReferenceDescramble | fec/descramble_mimo/descramble_mimo.cpp:188-222 | Exact status; the oracle permutes streams, multiplies signs and clears tails as `BitComesFromStream` says |
| Descramble.DescrambleOnCores | fec/descramble_mimo/descramble_mimo_kernel.cpp:81-108 | The tiled kernel does the same on four cores |
| Descramble.BitComesFromStream | fec/descramble_mimo/descramble_mimo.cpp:206-220 | NR bit 2h + p is read from physical stream h + 4p, kept under sign 1 and negated under -1, -32768 saturating or wrapping; tails are zero |
| Descramble.KernelIsOracleAt | fec/descramble_mimo/descramble_mimo_kernel.cpp:81-108 | An element agrees exactly unless a wrapping lane multiplies -32768 by -1 at a valid symbol |
| Descramble.KernelIsOracle | fec/descramble_mimo/descramble_mimo_kernel.cpp:81-108 | The arrays are equal exactly when no valid symbol overflows |
| Descramble.RoundTrip | fec/descramble_mimo/descramble_mimo.cpp:206-220 | A soft value with the sign of its scrambled bit is descrambled to the sign of the NR bit with its magnitude; tails are zero |
| DescrambleSiso.CompactRows | fec/descramble_siso/descramble_kernel.cpp:130-135 | Twelve overlapping copies leave the compacted rows; no access leaves the buffers and their guards |
| DescrambleSiso.RunStream | fec/descramble_siso/descramble_kernel.cpp:130-141 | Compaction, clear and multiplication leave exactly 12 x 1596 products and a zero tail |
| DescrambleSiso.SourceIsRow | fec/descramble_siso/descramble_kernel.cpp:131-135 | Symbol i of used row d comes from symbol i of padded row d |
| DescrambleSiso.BitComesFromPaddedStream | fec/descramble_siso/descramble_kernel.cpp:110-147 | Symbol e of row d of NR bit 2h + p is read from symbol e of padded row d of physical stream h + 4p, under its sign; behind the twelve rows the output is zero |
| DescrambleSiso.SisoIsCompact | fec/descramble_siso/descramble_kernel.cpp:110-147 | On padded rows the single-layer kernel gives what the compact kernel gives on compacted rows |
| DescrambleSiso.DescrambleOnCores | fec/descramble_siso/descramble_kernel.cpp:104-147 | Every stream of every requested slot, with the slot word capped |
| DmrsSequence.RegisterIsLinear | chain/pusch_siso_tx_chain/tx_chain.cpp:83-91 | The second register is linear in its start bits |
| DmrsSequence.BasisSpans | chain/pusch_siso_tx_chain/tx_chain.cpp:83-91 | The register is the combination of the units its start bits select |
| DmrsSequence.BuildDmrsMatrix | chain/pusch_siso_tx_chain/tx_chain.cpp:75-92 | First plane and 31 basis planes, split into even and odd elements with cleared padding |
| DmrsSequence.Superposition | chain/pusch_siso_tx_chain/tx_chain.cpp:75-92 | For every initial value and element, g1 combined with the selected basis rows is the directly generated sequence |
| DmrsSequence.TxCinitIsStandard | chain/pusch_siso_tx_chain/tx_chain.cpp:65-71 | The transmitter's formula is (2^17 (14 slot + l + 1) (2 n_id + 1) + 2 n_id + n_scid) mod 2^31 of section 6.4.1.1.1.1 of TS 38.211 |
| DmrsSequence.RxCinitIsStandard | chain/pusch_siso_rx_chain/rx_chain.cpp:268-272 | So is the receiver's, whatever wraps at 32 and 64 bits |
| DmrsSequence.FillCinit | chain/pusch_siso_tx_chain/tx_chain.cpp:65-71 | All 14 initial values of a slot are that formula's |
| DmrsSequence.DmrsSequence | chain/pusch_siso_rx_chain/rx_chain.cpp:274-298 | Pilot signs are elements 2k and 2k + 1 |
| DmrsSequence.BothEndsAgree | chain/pusch_siso_rx_chain/rx_chain.cpp:274-298 | Transmitter planes and receiver reference agree for every slot, symbol and identity |
| Bits.Popcount16 | channel_est/mimo_dmrs_ls/mimo_dmrs_ls.cpp:9-17 | Shifting out counts the set bits |
| Pilots.MaskTest | channel_est/mimo_dmrs_ls/mimo_dmrs_ls.cpp:46-50 | Counting the set bits and looking above the fourteenth decides whether exactly two symbols are named |
| MimoDmrsLs.DmrsSymbols | channel_est/mimo_dmrs_ls/mimo_dmrs_ls.cpp:65-68 | The listed symbols are exactly the mask's bits, in order |
| Pilots.SharingIsPairing | channel_est/mimo_dmrs_ls/mimo_dmrs_ls.cpp:79-84 | Distinct ports put one or two layers on a comb, two exactly when another layer shares it: the rejection is unreachable |
| MimoDmrsLs.BuildCurrentProfile | channel_est/mimo_dmrs_ls/mimo_dmrs_ls.cpp:29-108 | Accepts exactly the supported configurations (`Pilots.SupportedCarrier`); lists the two pilot symbols in order, and in every used slot its layer's pilot subcarriers, all of them, once, in order, over clear padding; unused slots are clear |
| MimoDmrsLs.DescribeObservationModels | channel_est/mimo_dmrs_ls/mimo_dmrs_ls.cpp:129-150 | Classifies every layer, or the exact rejection |
| MimoDmrsLs.ValidateNaturalLmmseContract | channel_est/mimo_dmrs_ls/mimo_dmrs_ls.cpp:152-182 | Accepts exactly the tables whose positions are arithmetic progressions of the right step with clear padding |
| ChannelEstLmmse.ValidateProfile | channel_est/channel_est_lmmse_mimo/channel_est_lmmse.cpp:26-61 | Accepts exactly the supported configurations with their own layout; another layout is an invalid argument whatever the ports |
| ChannelEstLmmse.SharingCount | channel_est/channel_est_lmmse_mimo/channel_est_lmmse.cpp:63-71 | The operator's count in unsigned 32-bit arithmetic is two exactly when another layer shares the comb, otherwise one |
| Fnv.PilotScHash | channel_est/channel_est_lmmse_mimo/channel_est_lmmse.cpp:75-87 | The FNV-1a hash of the positions' bytes in memory order |
| Fnv.FirstHashes | channel_est/channel_est_lmmse_mimo/channel_est_lmmse.cpp:75-87 | The hash of no position is 1469598103934665603, that of one zero position 11126445248426326267 |
| Bits.XorIsBitwise | channel_est/channel_est_lmmse_mimo/channel_est_lmmse.cpp:81-84 | Each bit of an exclusive or is set if exactly one operand's is |
| Fnv.DetectsOneChange | channel_est/channel_est_lmmse_mimo/channel_est_lmmse.cpp:75-87 | Changing one position, and no other, always changes the hash |
| ChannelEstLmmse.BuildWeightModel | channel_est/channel_est_lmmse_mimo/channel_est_lmmse.cpp:89-118 | Exact status and header; every used slot's count and hash, whatever the counts announce and whatever lies behind the table; unused slots are zero |
| ChannelEstLmmse.ValidateObservationModel | channel_est/channel_est_lmmse_mimo/channel_est_lmmse.cpp:120-160 | Exact status: the first slot, in layer and symbol order, whose positions or fingerprint differ decides; a supported profile is never rejected for sharing |
| PilotAgreement.AcceptedMeans | channel_est/channel_est_lmmse_mimo/channel_est_lmmse.cpp:120-160 | The observation model accepts exactly the tables that list every layer's pilot subcarriers and match the fingerprint |
| PilotAgreement.MismatchMeans | channel_est/channel_est_lmmse_mimo/channel_est_lmmse.cpp:138-158 | An observation mismatch means that the first slot to fail does not list its pilots, a weight-model mismatch that the header is another's or that this slot lists them with another fingerprint |
| PilotAgreement.ListedPositions | channel_est/channel_est_lmmse_mimo/channel_est_lmmse.cpp:138-148 | A listed table entry by entry: 399 positions 1 + g + 4p where another layer shares the comb, 798 positions g + 2p otherwise, 832 entries a slot |
| PilotAgreement.ProducedIsNatural | channel_est/mimo_dmrs_ls/mimo_dmrs_ls.cpp:152-182 | A produced table passes the natural contract |
| PilotAgreement.ProducedIsObserved | channel_est/channel_est_lmmse_mimo/channel_est_lmmse.cpp:120-160 | A produced table with its fingerprint passes the observation model: comb offsets and a despreading flag on one side, sharing counts and 16-bit casts on the other, give the same positions |
| PilotAgreement.ObservedIsProduced | channel_est/channel_est_lmmse_mimo/channel_est_lmmse.cpp:120-160 | Any table the observation model accepts has the produced counts and positions in every used entry, and the producer accepts its configuration |
| PilotAgreement.FingerprintTransfers | channel_est/channel_est_lmmse_mimo/channel_est_lmmse.cpp:149-156 | A weight model accepted with one table is accepted with every table the configuration produces |
| PilotAgreement.ObservedIsNaturalIff | channel_est/mimo_dmrs_ls/mimo_dmrs_ls.cpp:174-176 | A table the observation model accepts passes the natural contract exactly when its unused entries are clear |
| PilotAgreement.ChangeIsDetected | channel_est/channel_est_lmmse_mimo/channel_est_lmmse.cpp:149-156 | One changed position in a used slot always fails the fingerprint |

## Left out

- fp16: posteriors and messages are real numbers; rounding, the half-precision range between rows and the
  conversion of 16-bit inputs to half are not modelled.
- RowKernel.RowGroup: performs the message store synchronously where the source issues it;
  `PipedKernel.EveryKernelRunDecodes` is the statement on the same buffers for every interleaving of issued stores.
- PipedKernel.EveryKernelRunDecodes: bounds every run and says what holds at the export; that a step can always be taken
  is stated for the control state (`MessagePipe.NoDeadlock`) and for the plain decoder (`PipedDecoder.EveryRunDecodes`),
  since what a group computes on the buffers is a method (`RowKernel.ComputeGroup`), not a function.
- Pipe-level timing: flags and waits appear in `MessagePipe` in program order only, not cycle by cycle.
- Vector chunking: a pass over an edge is one elementwise step per lane stride, not chunks of 128 elements with
  repeat and stride descriptors; the lane mask that is reused between chunks is not a separate buffer.
- CheckKernel.CheckNodes: runs the reduction for any degree from 2; the kernel's switch skips degrees it does not
  list (see Assumptions).
- Buffer aliases of the decoder's tail: hard decisions are computed from the exported integers, not in the unused
  part of the posterior buffer.
- Degrees and edge offsets: the degree input is taken to be the table's row degrees; `edge_offsets` is never read.
- Parallel cores: cores run one after the other; their writes are proved disjoint.
- RateProfile.BuildCurrentProfile: null pointers and too small a descriptor capacity are not modelled.
- RateDematchKernel.ReferenceRateDematch: null pointers, buffer capacities and aliasing arguments are not modelled;
  nor are those of the other operators' entry points.
- Scramble.BuildGoldSign: the destination's capacity is modelled, null pointers are not.
- Descramble.ReferenceDescramble: null pointers and overlapping buffers are not modelled.
- ChannelEstLmmse.ValidateObservationModel: null pointers are not modelled; nor are the alternative LMMSE operators'
  argument checks.
- RateDematchAgreement.KernelIsOracle: one direction, for every layout; the converse holds exactly where slots times
  layers is at most 23 (`RateDematchRepeats.AgreementDecidesIff`).
- Kernel metadata words: the kernels' re-validation of their tiling header is not modelled.
- DescrambleSiso.DescrambleOnCores: states nothing about slots beyond the requested count, which the kernel does
  not write.
- QAM mapping, layer mapping, LS and LMMSE kernels, equalizer, OFDM and synchronisation: not part of the coded-bit
  path or floating-point linear algebra.
- Recovery of the two punctured information columns: not guaranteed by the decoder.
- LLR values of zero at transmitted positions: the end-to-end theorem asks for nonzero ones.
