# Proofs about the benchmarks and the loader

Dafny models of five parts of the repository, with proofs of what they promise. `dafny verify dfyconfig.toml`
checks all of it.

**CoreMark's linked list** (`benchmarks/coremark/core_list_join.c`, driven by `iterate` in `core_main.c`). The cells
are objects and every operation works on their `next` and `info` pointers in place. `Cells` has the data,
`Comparators` the two comparators and the value that is computed and cached on first use, `SortSpec` what a merge
sort with such comparators establishes, `MergeSort` the sort itself, `ListOps` find, reverse, move to front, remove
and undo, `FindLoop` the loop of finds, `BenchList` a whole call, `Restoration` which calls and lists it restores,
`CoreMain` the repeated calls, `ListInit` and `InitOrder` the list they start from, `CoreRun` both together. The
kernels that a first comparison runs return any 16-bit value; everything holds for all of them.

**CoreMark's number scanner and CRC** (`core_state.c`, `core_util.c`): `StateScan` is the machine and the grammar it
recognises, `StateBench` the two scans with corruption and undo, `StateInit` the block they run on, `Crc` the CRC.

**The UART loader** (`comp_test/verilator/verilator_main.cpp`, `fpga/scripts/run_fpga_benchmark_ddr3.py`):
`LoaderProtocol` is the wire format and a receiver, `VerilatorMain` the simulated sender, `BlockSender` the host's
senders, `Beacons` the frames that share the wire with acknowledgements. The peer may send anything at any time.

**Hex images** (`fpga/scripts/build_benchmark_image.py`, `generate_coe.py`, `merge_hex_for_mem_subsys.py`): `HexImage`
is the writer and both parsers, `HexText` what else they read, `HexPacker` the two that pack the bytes into words.

**Numbers and Dhrystone** (`core_portme.c`, `core_util.c`, `ax7203_board_runtime.c`, `benchmarks/dhrystone/`):
`Numerals` is `utoa`, `parseval` and `board_print_u32`, `Dhrystone` the timed loop on its two records and its table of
final values.

`Words`, `Sequences` and `Loops` hold the machine words, the byte strings and the repetition that the rest shares.

What the proofs found:

- The comment over `core_bench_list` says that the list is back in its original state at the end. Every call restores a
  list exactly if all its idx are different (`AlwaysRestored`). With ties it depends on the call: the final sort is
  stable, so tied items stay in the order that the finds and the sort by data left them in (`EveryCallRestores` gives
  the exact condition, before the call). `core_list_init` does not exclude ties; `TiesExactly` says for which sizes and
  seeds it makes them, among them every block of more than 322 cells, and `SixLost` gives a list that is not restored.
- `core_list_mergesort` stores through `tail` after its first pass, so the list must not be empty.
- The comment over `core_list_find` says that it looks by idx "if not 0"; the code does so from 0 on, and the model
  follows the code.
- The table of scientific numbers holds "-87e+832". The scanner takes no exponent without a decimal point and finds
  it invalid (`PatternKinds`).
- The undo of the corruption needs more than equal seeds: a byte that the corruption turns into a comma stays one
  (`StateBench.RestoresExactly`, with an example in `LostExample`).
- `utoa` takes any width, but with one of 32 or more it writes behind the 32 characters of its callers' buffers
  (`FitsExactly`).
- Dhrystone's table says that `Arr_2_Glob[8][7]` should be the number of runs plus 10. The array is not set back when
  a measurement was too short and is repeated, so that holds if and only if none was (`ArrayRowHolds`). All other rows
  hold after any number of runs (`TimedLoop`, `Measure`).

## Model

| member | source | states |
|---|---|---|
| Crc.Crcu8 | benchmarks/coremark/core_util.c:165-188 | The bit loop shifts the register over the eight bits, low bit first, which leaves the remainder of the division by x^16+x^15+x^2+1 |
| Crc.Crcu16 | benchmarks/coremark/core_util.c:190-195 | Two bytes, low one first: the remainder for the sixteen bits of the word |
| Crc.Crc16Of | benchmarks/coremark/core_util.c:203-207 | The same on numbers, with the casts of the callers |
| Crc.Crcu32 | benchmarks/coremark/core_util.c:197-202 | The CRC of the low word and then of the high word |
| Crc.Crc32IsFold | benchmarks/coremark/core_util.c:197-202 | which is that of the 32 bits in order, low one first |
| Crc.Constants | benchmarks/coremark/core_util.c:165-188 | The mask that the loop's two branches amount to is the polynomial 0xA001 |
| Crc.DivisionWorks | benchmarks/coremark/core_util.c:165-188 | Long division: every polynomial is its quotient times the generator plus its remainder, |
| Crc.DivisionUnique | benchmarks/coremark/core_util.c:165-188 | and by no other quotient and remainder |
| Crc.FoldIsRemainder | benchmarks/coremark/core_util.c:165-188 | The CRC of any message from any register is the remainder of message * x^16 + crc * x^length |
| Crc.CrcIsRemainder | benchmarks/coremark/core_util.c:165-188 | A register is the CRC if and only if it is left by a division by the generator, for some quotient |
| Crc.WordsAreBits | benchmarks/coremark/core_util.c:190-195 | Folding word by word is folding all their bits in order |
| Crc.FoldLinear | benchmarks/coremark/core_util.c:165-188 | The CRC is linear over exclusive or, in message and register together |
| Crc.Crc16Linear | benchmarks/coremark/core_util.c:203-207 | and so is crc16, on numbers |
| Crc.NatRoundTrip | benchmarks/coremark/core_util.c:203-207 | The cast to an unsigned type of so many bits keeps a number modulo that power of two |
| Crc.Crc16Casts | benchmarks/coremark/core_util.c:203-207 | so crc16 depends on the low 16 bits of its arguments only |
| Crc.FoldInjective | benchmarks/coremark/core_util.c:165-188 | For fixed data the register before determines the one after and the other way round |
| Crc.ShortBurst | benchmarks/coremark/core_util.c:165-188 | A non-zero message of at most 16 bits never leaves a zero register at zero: for a fixed register a word's CRC determines the word |
| Crc.BurstDetected | benchmarks/coremark/core_util.c:165-188 | Messages that differ within 16 neighbouring bits only have different CRCs |
| Crc.WordErrorDetected | benchmarks/coremark/core_util.c:190-195 | Messages that differ in one 16-bit word have different CRCs |
| Crc.FoldParity | benchmarks/coremark/core_util.c:165-188 | The parity of the register is the parity of what went in: x+1 divides the generator |
| Crc.OddErrorDetected | benchmarks/coremark/core_util.c:165-188 | Messages that differ in an odd number of bits have different CRCs |
| Comparators.CalcFunc | benchmarks/coremark/core_list_join.c:69-112 | An item's value is computed by its kernel at most once, cached in the low byte with bit 7 set, and returned from there ever after; the backup byte never changes; which CRCs the first use updates |
| Comparators.CmpComplexOf | benchmarks/coremark/core_list_join.c:120-126 | The difference of the two cached values, computing and caching what is missing |
| Cells.WordFields | benchmarks/coremark/core_list_join.c:69-88 | Kernel number, input, mark and backup by the bits of the 16-bit word |
| Comparators.Compare | benchmarks/coremark/core_list_join.c:120-142 | Both comparators leave both items settled and order them by what they then hold; without a results block cmp_idx rebuilds the low bytes; any other comparator leaves the items alone |
| SortSpec.MergeEnd | benchmarks/coremark/core_list_join.c:532-580 | A finished merge of two neighbouring runs is one run: sorted, ties in input order, all of it compared |
| SortSpec.AfterMerge | benchmarks/coremark/core_list_join.c:515-581 | After each merge the merged stretch is made of full blocks of twice the run length and the rest is untouched |
| SortSpec.ThreadStep | benchmarks/coremark/core_list_join.c:567-576 | Appending the next cell rewrites one link and keeps the three stretches of the list linked |
| SortSpec.PermutesOnto | benchmarks/coremark/core_list_join.c:499-595 | A sort order that names no cell twice names every cell |
| SortSpec.SortUnique | benchmarks/coremark/core_list_join.c:499-595 | There is only one stable sorted order of the same items, so the sort's contract determines its result |
| MergeSort.Merge | benchmarks/coremark/core_list_join.c:532-580 | One merge: choose, append, advance, with comparisons that change items as they go |
| MergeSort.SortPass | benchmarks/coremark/core_list_join.c:509-583 | One pass over the list merges all pairs of runs, ends the list and counts the merges |
| MergeSort.SortPasses | benchmarks/coremark/core_list_join.c:505-591 | Run length doubles until one merge is left; terminates, and the 32-bit run length does not overflow |
| MergeSort.CoreListMergesort | benchmarks/coremark/core_list_join.c:499-595 | For both comparators and any other that compares by a total preorder: the list is relinked into a permutation of exactly its cells, sorted by what the items hold at the end, stable; every item of a list of two or more has been compared (so cached, or rebuilt); each kernel runs at most once; the inputs of the results block are kept |
| ListOps.CoreListFind | benchmarks/coremark/core_list_join.c:434-449 | The first item with the wanted idx, or low byte if the idx is negative |
| ListOps.CoreListReverse | benchmarks/coremark/core_list_join.c:464-476 | The same cells in reverse order |
| ListOps.CacheNext | benchmarks/coremark/core_list_join.c:188-195 | The successor of the found cell moves to the second place, all other cells keep their order |
| ListOps.CoreListRemove | benchmarks/coremark/core_list_join.c:376-389 | The next cell is unlinked and the two cells swap their data |
| ListOps.CoreListUndoRemove | benchmarks/coremark/core_list_join.c:407-419 | The exact inverse: cells, order and data as before the removal |
| FindLoop.RunFinds | benchmarks/coremark/core_list_join.c:170-203 | The find loop: items, positions, running idx and counters; a round counts as found exactly if there is an item of what it looks for; the cells are those it began with, in the order that the state says |
| FindLoop.FindsCounted | benchmarks/coremark/core_list_join.c:172-198 | Round i looks for the i-th idx after the first one (negative for good past 0x7fff), or for an item whose low byte is i mod 256; found counts the rounds for which there is one, missed the others |
| FindLoop.FindBitMeans | benchmarks/coremark/core_list_join.c:176-187 | The bit of a round: bit 8 of the second item of the reversed list after a miss, bit 9 of the found item if it is odd |
| FindLoop.RetvalCounts | benchmarks/coremark/core_list_join.c:176-187 | The result so far is the number of rounds with their bit set |
| BenchList.FindValueCounts | benchmarks/coremark/core_list_join.c:203 | and the loop returns that, plus four for each found, less one for each missed |
| BenchList.CrcTimesIsCrc | benchmarks/coremark/core_list_join.c:212-216 | The same value added once per cell is the CRC of that many words |
| FindLoop.ApplyPlaces | benchmarks/coremark/core_list_join.c:176-196 | A round rearranges: the order after it is a permutation again |
| FindLoop.ApplyMoves | benchmarks/coremark/core_list_join.c:176-196 | Cells, data cells and items move alike |
| BenchList.RemoveAndUndo | benchmarks/coremark/core_list_join.c:207-221 | Removal, search, CRC and undo leave cells, order and data as they were and return the CRC of the head once per cell of the tail found |
| BenchList.TailLengthMeans | benchmarks/coremark/core_list_join.c:207-216 | Those cells are the ones from the first match on in the list without its second item, or all behind the head if there is none |
| BenchList.SortByData | benchmarks/coremark/core_list_join.c:204-206 | The sort by data leaves the items stably sorted by their cached 7-bit values, every kernel of an uncached item has run exactly once, the backup bytes are kept |
| BenchList.SortByIdx | benchmarks/coremark/core_list_join.c:222-223 | The sort by idx rebuilds the data of every item, the odd last one of a pass included, and sorts stably |
| BenchList.CoreBenchList | benchmarks/coremark/core_list_join.c:158-235 | A whole call: return value, order, data and kernel runs for any find idx, any hits and misses, any kernel results |
| BenchList.CallPermutes | benchmarks/coremark/core_list_join.c:158-235 | A call only permutes the items and rebuilds their data |
| BenchList.CallRestores | benchmarks/coremark/core_list_join.c:151-157 | A list with strictly increasing idx comes back in exactly its order, every data byte rebuilt |
| Restoration.AlwaysRestored | benchmarks/coremark/core_list_join.c:151-157 | The comment's claim, for a list sorted by idx: every call - whatever it looks for, as often as it does, and whatever its kernels compute - restores it if and only if all idx are different |
| Restoration.EveryCallRestores | benchmarks/coremark/core_list_join.c:151-157 | For one finder_idx and one number of rounds: every such call, whatever its kernels compute, restores the list if and only if the find loop leaves the items of equal idx so that what is known of their values before the call brings their order back |
| Restoration.CallExists | benchmarks/coremark/core_list_join.c:158-235 | For any values that the kernels can compute there is a call in which they do |
| Restoration.MissesRestore | benchmarks/coremark/core_list_join.c:170-203 | What that comes to when the finds look for data and all miss: restored if and only if their number is even or all idx are different |
| CoreMain.CallOnce | benchmarks/coremark/core_list_join.c:158-235 | A call on a fresh list leaves the list, its data and res->list exactly as they were |
| CoreMain.PlainCall | benchmarks/coremark/core_main.c:67 | The value of the second call of a turn is the same in every turn, whatever the kernels compute |
| CoreMain.Iterate | benchmarks/coremark/core_main.c:51-73 | After any number of turns the never rewritten res->list is still the head of the same list with the same data; each kernel of an uncached item ran once per turn; the CRC after each turn and crclist after the first |
| CoreMain.CopiesCount | benchmarks/coremark/core_main.c:63-71 | Once per turn means that many runs for a waiting item and none for another |
| ListInit.CoreListInsertNew | benchmarks/coremark/core_list_join.c:335-360 | The next free cell and data go in behind the given one with a copy of the data; nothing changes when only one is left |
| ListInit.Fill | benchmarks/coremark/core_list_join.c:266-288 | Header, sentinel and then one item after the other behind the header, until the pool has one cell left |
| ListInit.Index | benchmarks/coremark/core_list_join.c:289-305 | The cells between header and sentinel get their idx by position |
| ListInit.CoreListInit | benchmarks/coremark/core_list_join.c:250-319 | The list of exactly size-1 cells, sorted by idx with stable ties, each cell of the block but the last used once; its header and sentinel are 0x8080 and 0xffff, and the item made i-th has kernel number i mod 8 and the low four bits of seed xor i for its input, in both bytes |
| ListInit.EightKernels | benchmarks/coremark/core_list_join.c:279-288 | Of eight items made one after the other each kernel number comes exactly once |
| ListInit.LaidOutCells | benchmarks/coremark/core_list_join.c:250-319 | Its cells are the first size-1 of the block, each of them once |
| InitOrder.EndsStay | benchmarks/coremark/core_list_join.c:266-306 | Sentinel last, by stability, whatever idx the formula gives; header first if and only if the idx of the first fifth fit 16 bits |
| InitOrder.BytesFit | benchmarks/coremark/core_list_join.c:253-260 | All cells and data lie inside blksize bytes |
| InitOrder.MixedBytes | benchmarks/coremark/core_list_join.c:298-302 | The idx of a mixed item in terms of its position and the seed, at any position |
| InitOrder.TiesExactly | benchmarks/coremark/core_list_join.c:289-305 | For every size and seed: all idx are different if and only if the block has at most 322 cells and no mixed item at a position p with p % 8 = 7 gets an idx of the first fifth |
| InitOrder.InitIsFresh | benchmarks/coremark/core_list_join.c:250-319 | The initialised list has increasing idx and intact data, as iterate needs it, if and only if that holds |
| InitOrder.InitIsRestored | benchmarks/coremark/core_list_join.c:250-319 | and if and only if that holds, every call restores it |
| InitOrder.SeedZero | benchmarks/coremark/core_main.c:223-224 | Seed 0 makes ties if and only if the block has more than 322 cells |
| InitOrder.SeedSix | benchmarks/coremark/core_main.c:223-224 | Seed 6 makes them in a block of 666 bytes |
| InitOrder.TiesLost | benchmarks/coremark/core_list_join.c:151-157 | With ties, a call that looks for data does not restore the initialised list when it does an odd number of finds that all miss |
| InitOrder.SixLost | benchmarks/coremark/core_list_join.c:151-157 | Seed 6 in 666 bytes makes such a list, and there is a call that loses its order: the comment's claim is false of it |
| CoreRun.InitAndIterate | benchmarks/coremark/core_main.c:51-73 | From core_list_init through any number of turns: with at most 322 cells and no collision the list ends as it was initialised, each kernel having run once per turn |
| StateScan.RunMeans | benchmarks/coremark/core_state.c:216-330 | The machine is in a state exactly after the words of its kind: sign? digit+, sign? digit* '.' digit*, a float with [eE], a sign and digits, their prefixes, or anything else |
| StateScan.Transit | benchmarks/coremark/core_state.c:230-326 | One step of the switch, with the counters it increments |
| StateScan.CoreStateTransition | benchmarks/coremark/core_state.c:216-330 | The word up to a comma, zero or first offending byte, its state, its steps counted, and where the next word starts |
| StateScan.TallyMeans | benchmarks/coremark/core_state.c:236-326 | Its steps, by the grammar: the start once for every word but the empty one; a sign, integer, float, exponent mark or its sign once if the word goes on to something else; an invalid word once if its first byte offends or one behind a scientific number does |
| StateScan.TokenEnd | benchmarks/coremark/core_state.c:222-229 | The scanner always advances on a non-zero byte, and never past the text |
| StateScan.WordMeans | benchmarks/coremark/core_state.c:222-229 | A word has no comma and no zero byte; it ends before one of these, at the end of the text, or with the byte that makes it no number |
| StateBench.Scan | benchmarks/coremark/core_state.c:66-75 | The scan ends, inside the block, and has counted every word of the text |
| StateBench.FinalsTotal | benchmarks/coremark/core_state.c:66-75 | Every word is counted in exactly one final state |
| StateBench.Corrupt | benchmarks/coremark/core_state.c:77-83 | Every step-th byte but the commas is changed by the seed, no other |
| StateBench.RestoresExactly | benchmarks/coremark/core_state.c:77-103 | The block is restored if and only if no byte is touched, or the seeds' low bytes are equal and none of the touched bytes becomes a comma |
| StateBench.StaysTerminated | benchmarks/coremark/core_state.c:77-95 | Two zero bytes at the end outlive a corruption with a step of at least two |
| StateBench.CallsStayTerminated | benchmarks/coremark/core_state.c:45-111 | They outlive any number of calls with any seeds whose steps have a common divisor, and both scans of the next one |
| StateBench.CoreBenchState | benchmarks/coremark/core_state.c:45-111 | The CRC of both scans' counters, and the block corrupted twice |
| StateBench.CountsCrcIs | benchmarks/coremark/core_state.c:105-109 | For each state in the order of their numbers, the words that ended in it and then its steps |
| StateInit.CoreInitState | benchmarks/coremark/core_state.c:139-191 | The block holds as many patterns as leave two bytes free, and zeros |
| StateInit.BlockFilled | benchmarks/coremark/core_state.c:145-191 | namely those of the seeds that follow the given one, each with a comma, up to the first one for which there is no room |
| StateInit.PatternTexts | benchmarks/coremark/core_state.c:114-127 | The text for each seed |
| StateInit.FreshBlockStays | benchmarks/coremark/core_list_join.c:81-96 | All calls that the list kernel makes on one initialised block of at least two bytes, with any seeds, stop inside it in both scans |
| StateInit.FreshBlockLost | benchmarks/coremark/core_state.c:77-103 | An initialised block whose last byte is touched with 0x2c for both seeds does not come back, |
| StateInit.LostExample | benchmarks/coremark/core_state.c:77-103 | so 647 bytes with step 0x22 do not |
| StateInit.PatternKinds | benchmarks/coremark/core_state.c:114-127 | Every pattern is of the kind of its table, but "-87e+832", which the scanner finds invalid |
| Words.Le32RoundTrip | comp_test/verilator/verilator_main.cpp:985-990 | A little-endian word reads back as it was |
| LoaderProtocol.ReceiveFrames | comp_test/verilator/verilator_main.cpp:1057-1077 | A receiver that keeps the blocks it accepts has exactly that prefix of the payload, for any replies |
| LoaderProtocol.HeaderSays | comp_test/verilator/verilator_main.cpp:1013-1020 | The header gives magic, base, entry, size and sum |
| LoaderProtocol.FrameSum | comp_test/verilator/verilator_main.cpp:1022-1031 | The four bytes behind a block are the sum of its bytes, without overflow |
| LoaderProtocol.SumOne | comp_test/verilator/verilator_main.cpp:1019-1028 | to which each byte counts for what it is, |
| LoaderProtocol.SumAppend | comp_test/verilator/verilator_main.cpp:1019-1028 | and a string for the sum of its parts |
| LoaderProtocol.MagicLetters | comp_test/verilator/verilator_main.cpp:1014 | The header starts with the letters BMK1 |
| VerilatorMain.PushU32Le | comp_test/verilator/verilator_main.cpp:985-990 | Four bytes, low one first |
| VerilatorMain.BlockSums | comp_test/verilator/verilator_main.cpp:1022-1031 | One sum per block of 64 bytes, the last one shorter |
| VerilatorMain.LoaderHost.constructor | comp_test/verilator/verilator_main.cpp:1005-1033 | The configuration: header and block sums |
| VerilatorMain.LoaderHost.Start | comp_test/verilator/verilator_main.cpp:1040-1045 | The sender starts with its header, once |
| VerilatorMain.LoaderHost.AllowPayloadStart | comp_test/verilator/verilator_main.cpp:1047-1055 | The payload starts, behind the header only |
| VerilatorMain.LoaderHost.ObserveTxByte | comp_test/verilator/verilator_main.cpp:1057-1077 | The fields after a byte from the peer |
| VerilatorMain.LoaderHost.Drive | comp_test/verilator/verilator_main.cpp:1079-1148 | The fields and the byte of one cycle |
| VerilatorMain.HeaderPace | comp_test/verilator/verilator_main.cpp:1040-1107 | Each header byte comes one header gap behind the start or the one before it |
| VerilatorMain.PayloadPace | comp_test/verilator/verilator_main.cpp:1047-1133 | Payload bytes come one start gap behind the permission, one payload gap behind each other in a chunk, and one chunk gap behind an acknowledgement or refusal |
| VerilatorMain.StandsObserved | comp_test/verilator/verilator_main.cpp:1057-1077 | The fields carry out the protocol on what the peer sends: only what is waited for counts |
| VerilatorMain.StandsDriven | comp_test/verilator/verilator_main.cpp:1079-1148 | The fields carry out the protocol on a cycle: the byte due, or none |
| VerilatorMain.RunSafe | comp_test/verilator/verilator_main.cpp:1040-1148 | Every run against any peer: the wire is the header, a whole frame per reply counted, and the beginning of the current frame |
| VerilatorMain.DoneDelivers | comp_test/verilator/verilator_main.cpp:1035-1038 | Done if and only if every block was accepted (with a block to send), and then the peer has the payload |
| VerilatorMain.BlocksInOrder | comp_test/verilator/verilator_main.cpp:1057-1077 | Before that it has exactly the accepted blocks in order; a reply is waited for right behind the block's bytes and their sum |
| VerilatorMain.FieldsInRange | comp_test/verilator/verilator_main.cpp:1097-1146 | No run indexes header, payload or sums out of bounds |
| VerilatorMain.RunHost | comp_test/verilator/verilator_main.cpp:1040-1148 | A sender driven through any events has the fields, and has sent the bytes, that the theorems about runs speak of |
| VerilatorMain.Progress | comp_test/verilator/verilator_main.cpp:1040-1148 | Every event that the sender waits for brings the end of the attempt nearer, or is the reply that ends it |
| VerilatorMain.StrayHarmless | comp_test/verilator/verilator_main.cpp:1040-1148 | and no other event takes it further away |
| VerilatorMain.DoneReached | comp_test/verilator/verilator_main.cpp:1040-1148 | In every run in which what is waited for always comes in the end, however much else comes before it, and in which finitely many blocks are refused, Done is reached |
| VerilatorMain.AnswersDeliver | comp_test/verilator/verilator_main.cpp:1035-1038 | There are such runs: a peer that answers at once gets the payload |
| Beacons.ScanLossless | fpga/scripts/run_fpga_benchmark_ddr3.py:2316-2351 | Tokens and tail are the stream; the tail is empty or an undecided beginning of a frame, under five bytes |
| Beacons.ScanAppend | fpga/scripts/run_fpga_benchmark_ddr3.py:2354-2378 | More bytes never change what is decided |
| Beacons.LoaderBeaconStreamFilter.Feed | fpga/scripts/run_fpga_benchmark_ddr3.py:2360-2378 | A feed passes on the bytes outside frames of all that is now decided and keeps the tail |
| Beacons.FeedAll | fpga/scripts/run_fpga_benchmark_ddr3.py:2354-2378 | However the stream is cut, the filter passes on what it passes on for the whole stream |
| Beacons.DecodeLoaderBeaconFrames | fpga/scripts/run_fpga_benchmark_ddr3.py:2316-2351 | The batch decoder finds the same tokens: frames with offsets, the other bytes, and the bad frames |
| Beacons.LengthsAdd | fpga/scripts/run_fpga_benchmark_ddr3.py:2316-2351 | Total length is passthrough, five per frame, and the tail |
| Beacons.ClearRoundTrip | fpga/scripts/run_fpga_benchmark_ddr3.py:2316-2351 | A list of frames and bytes decodes to itself if and only if no byte of its own heads a frame or lacks four followers |
| Beacons.InterleavedRoundTrip | fpga/scripts/run_fpga_benchmark_ddr3.py:2354-2378 | Frames mixed with any bytes but 0xA5 come out as they went in, so an ACK byte inside a frame is never passed on |
| Beacons.OneByteError | fpga/scripts/run_fpga_benchmark_ddr3.py:2329-2334 | A frame with one wrong byte behind its first is never taken for a frame |
| Beacons.CheckCancels | fpga/scripts/run_fpga_benchmark_ddr3.py:2329-2333 | The five bytes of a frame, of which the first is 0xA5, cancel each other |
| Beacons.EventsStand | fpga/scripts/run_fpga_benchmark_ddr3.py:2335-2345 | Each event gives the place of its frame in the stream |
| BlockSender.SlicesLossless | fpga/scripts/run_fpga_benchmark_ddr3.py:3452-3453 | The chunks are the payload |
| BlockSender.SlicesCount | fpga/scripts/run_fpga_benchmark_ddr3.py:3507-3508 | and len/size of them, rounded up |
| BlockSender.SendUartPayloadWithAck | fpga/scripts/run_fpga_benchmark_ddr3.py:3435-3473 | The chunks sent, their acknowledgements, the misses, and when it gives up |
| BlockSender.SendChecksum | fpga/scripts/run_fpga_benchmark_ddr3.py:3533-3559 | The sum once or more, by acknowledgements and replies |
| BlockSender.WholeAttempt | fpga/scripts/run_fpga_benchmark_ddr3.py:3514-3541 | An attempt that reaches its sum has put the exact block and one or more copies of its sum on the wire |
| BlockSender.SendUartPayloadWithBlockChecksums | fpga/scripts/run_fpga_benchmark_ddr3.py:3476-3598 | For any acknowledgements and replies: success with failed block -1, or exactly one of timeout and retry limit at the block after the accepted ones; all counters are those of the attempts on the wire. And by what has passed alone: acks, nacks and misses count the replies and missing acknowledgements in it, a timeout is a last act that is a missing acknowledgement or a reply that is neither, and the limit is hit behind a refusal |
| BlockSender.OneCopy | fpga/scripts/run_fpga_benchmark_ddr3.py:3535-3536 | A limit of at most 1 sends the sum at most once |
| BlockSender.NoAttempt | fpga/scripts/run_fpga_benchmark_ddr3.py:3511 | A retry limit of 0 or less allows no attempt |
| BlockSender.RefusedBound | fpga/scripts/run_fpga_benchmark_ddr3.py:3511 | Refusals are at most retry_limit*(ACKs+1) |
| BlockSender.SuccessDelivers | fpga/scripts/run_fpga_benchmark_ddr3.py:3507-3586 | A success got the whole payload accepted, in ceil(len/block_bytes) blocks |
| Comparators.RunKernel | benchmarks/coremark/core_list_join.c:81-108 | Which kernel runs on which input, and which of the two first results it sets |
| Comparators.SelectsMeans | benchmarks/coremark/core_list_join.c:81-108 | Which that is, by the bits of the item's word |
| HexImage.WriteVerilogByteImage | fpga/scripts/build_benchmark_image.py:87-93 | A line per byte, and an address line where the addresses are not consecutive |
| HexImage.ParseVerilogHex | fpga/scripts/generate_coe.py:19-47 | The loops over lines, tokens and pairs of digits read what the lines say, or fail; numbers as Python's int takes them, with sign, prefix, underscores and white space |
| HexImage.ParseByteHex | fpga/scripts/merge_hex_for_mem_subsys.py:24-41 | The same for the format with a byte per token |
| HexImage.HexRoundTrip | fpga/scripts/build_benchmark_image.py:91-92 | A number in hexadecimal digits of any least width reads back as it was |
| HexText.HexShape | fpga/scripts/build_benchmark_image.py:91-92 | Its digits are upper-case, with leading zeros up to that width only |
| HexText.LinesCounted | fpga/scripts/build_benchmark_image.py:87-93 | As many lines as bytes and gaps in the addresses |
| HexText.FormsRead | fpga/scripts/generate_coe.py:32-43 | White space around a number does not matter, a minus negates it, a prefix may stand before its digits |
| HexText.UnderscoreReads | fpga/scripts/generate_coe.py:32-43 | nor does an underscore between two digits |
| HexText.TokenReads | fpga/scripts/generate_coe.py:36-45 | A token of any number of digits is the number that it stands for in big-endian bytes, an odd number of digits with a leading zero |
| HexImage.AddrReads | fpga/scripts/generate_coe.py:32-34 | Both parsers take an address line for what it says |
| HexImage.ByteReads | fpga/scripts/generate_coe.py:36-45 | and a byte line for its byte |
| HexImage.ImageRoundTrip | fpga/scripts/build_benchmark_image.py:87-93 | Both parsers read a written image back: the same addresses with the same bytes |
| HexPacker.ByteMapToWords | fpga/scripts/generate_coe.py:50-72 | Every word has the low bytes of its four addresses in little-endian order, less the base address exactly if rebasing is allowed and some address reaches it; what lies outside is dropped; for any order of the keys |
| HexPacker.MergeWords | fpga/scripts/merge_hex_for_mem_subsys.py:51-72 | The words hold the merged values, data before instructions, ORed lane by lane, for numbers of any size; exactly as many as the highest address needs and the memory has room |
| HexPacker.RebaseMeans | fpga/scripts/generate_coe.py:57-62 | One address at the base or above it makes the packer use it, unless that is not allowed; none below will do |
| HexPacker.BytesKept | fpga/scripts/generate_coe.py:70 | Bytes enter the words as they are |
| HexPacker.DataWins | fpga/scripts/merge_hex_for_mem_subsys.py:51-53 | Where both images have a value the merged one is that of the data |
| HexPacker.PackedBit | fpga/scripts/merge_hex_for_mem_subsys.py:55-58 | Which bits such a word has: those of its lanes, a larger number reaching into the next ones |
| HexPacker.BytesPacked | fpga/scripts/merge_hex_for_mem_subsys.py:55-58 | Of bytes, it is the little-endian word |
| HexPacker.BitsUnique | fpga/scripts/merge_hex_for_mem_subsys.py:55-58 | The bits determine the number |
| Numerals.NumeralValue | benchmarks/coremark/core_portme.c:83-95 | The digits stand for the number, with a leading zero only for 0 |
| Numerals.Utoa | benchmarks/coremark/core_portme.c:83-109 | The digits in the base, padded in front to the width, ended by a zero character, and no store behind that |
| Numerals.FitsExactly | benchmarks/coremark/core_portme.c:83-114 | Every store, in the local array of 32 characters and in the buffer, is inside if and only if the width is at most 32 and below the size of the buffer: for the callers' 32 characters, up to a width of 31 |
| Numerals.Parseval | benchmarks/coremark/core_util.c:70-118 | Sign, hexadecimal prefix, digits and multiplier |
| Numerals.QualifiedParses | benchmarks/coremark/core_util.c:70-118 | A minus negates, a prefix makes hexadecimal, K and M multiply by 1024 and 1024 * 1024 |
| Numerals.RoundTrip | benchmarks/coremark/core_util.c:70-118 | parseval reads back what utoa writes, zero padding allowed, hexadecimal behind "0x" |
| Numerals.BoardPrintU32 | benchmarks/common_ax7203/ax7203_board_runtime.c:301-315 | The decimal digits without a leading zero, out of ten buffer slots for every 32-bit value |
| Dhrystone.Globals.Func2 | benchmarks/dhrystone/dhrystone.c:94-125 | The comparison of the strings; it returns only if the two characters it looks at differ |
| Dhrystone.Globals.Proc1 | benchmarks/dhrystone/dhrystone_main.c:292-313 | The two records after the assignments through three names for them |
| Dhrystone.Globals.Proc8 | benchmarks/dhrystone/dhrystone.c:56-76 | The array elements written, all indices in range |
| Dhrystone.RunOnce | benchmarks/dhrystone/dhrystone_main.c:139-164 | One run ends in the table of final values |
| Dhrystone.TimedLoop | benchmarks/dhrystone/dhrystone_main.c:138-165 | Any number of runs from one on ends in the table; Arr_2_Glob[8][7] has counted them |
| Dhrystone.Measure | benchmarks/dhrystone/dhrystone_main.c:128-194 | With repetitions for measurements that were too short: the table, the last number of runs, and the runs of all of them counted |
| Dhrystone.ArrayRowHolds | benchmarks/dhrystone/dhrystone_main.c:209-210 | "Arr_2_Glob[8][7] should be Number_Of_Runs + 10" holds if and only if no measurement was repeated |
| Dhrystone.FirstIsSmaller | benchmarks/dhrystone/dhrystone.c:112-124 | The first string is not greater than the second, so Func_2 returns false |

## Left out

- The kernels' results when modelling the list: `core_bench_matrix` and `core_bench_state` return any 16-bit value there and leave the list alone.
- The pointer arithmetic of `core_list_init`: the block is a sequence of cells and one of data, the two free pointers are indices into them.
- MergeSort.CoreListMergesort: lists of 2^31 cells or more are excluded, because `insize` is 32 bits wide.
- StateScan.CoreStateTransition: the counters are unbounded; the CRC reads their low 32 bits.
- The delays of the senders (gaps in seconds), trace output, serial ports, files, argument parsing and summaries.
- The rest of `run_fpga_benchmark_ddr3.py`: capture, classification and reports, among them `validate_loader_early_audit_session_order`, which never records the header events it then requires.
- The out-of-order core, its RTL and the loader ROM.
- The matrix kernels, memory helpers, formatted output, test runners and log scrapers.
- The text that the writer gives for an image without bytes, a comment that one of the parsers does not take; the round trip is for images with bytes.
- Numerals.Parseval: the result is unbounded, as its overflow is undefined in C.
- Numerals.Utoa: bases 10 and 16 only, the two that are used; `printnum` and the formatted output around it.
- Dhrystone.Measure: the number of runs is unbounded; which measurements are too short is a parameter; the timing and printing in between.
- BlockSender.SendUartPayloadWithBlockChecksums: what `after_block_nack` reads from the port is dropped; the acknowledgements and replies that remain are parameters, and any are covered.
- HexImage.ParseVerilogHex: of the digits that Python's `int` takes, the ASCII ones.
- HexPacker.MergeWords: the order in which a dictionary gives its keys is a parameter, and every order is covered.
