# The m9 runtime, modelled

m9 programs run on a small hand-written C runtime (`runtime/m9rt.c`, `runtime/m9rt.h` and a few shims),
with libraries such as the Arrow writer and reader compiled to C (`runtime/gen/Arrow.c`).
This project models their hard parts in Dafny and proves what their comments promise. Where the C code
changes things in place the model does too: classes for the pools, the timer heap, the SHA-256 state, the
Arrow table, its builder and its reader, and the command line, methods with loops over arrays for the
sorts, the flips, the scanners and the CRC, each proved against a function that says what it computes;
the properties are then proved of that function. The scheduler and the monitors are transition systems: one action is one atomic access or
what is done under one lock, any number of processes take them in any order, and the results hold in every
reachable state of every run.

| part | files |
|---|---|
| UTF-8: codec, validator, block-wise validator, word-parallel counter, slices | `Utf8`, `Utf8Text`, `Utf8Vector`, `Utf8Words`, `Utf8Runtime` |
| Sorting: octet and character order, radix passes, insertion and merge, argsort of strings | `TextOrder`, `RadixSort`, `StringSort`, `StringArgsort` |
| Checksums: CRC-32 by eight tables, SHA-256 streamed and in one go | `Crc32`, `Sha256`, `Sha256Stream` |
| Numbers: trailing zeros, parsing decimals, printing them, rounding to binary64 | `TrailingZeros`, `DecimalText`, `DecimalScan`, `DecimalLayout`, `PowerLog`, `DoubleRounding`, `EiselLemire` |
| Monitors: entry, LEAVE, WAIT and SIGNAL of tasks and threads | `Queues`, `Monitor`, `MonitorPlaces`, `MonitorProof`, `MonitorSafety`, `MonitorRuns` |
| Scheduler: carriers, run queues, the slot, stealing, pinning, stacks | `Scheduler`, `SchedulerPlaces`, `SchedulerProof`, `SchedulerSafety`, `SchedulerRuns` |
| Poller: the timer heap and the parks | `Poller` |
| Pools: blocks, the block cache, carving, concatenation, marks and release, adoption | `PoolBlocks`, `Pools` |
| Arrow streams: octets, tables and the builder on values | `ArrowBytes`, `ArrowTables`, `ArrowBuild`, `ArrowSchema`, `ArrowMessage`, `ArrowBatch`, `ArrowBody` |
| Arrow streams: what a whole stream reads as, with and without metadata | `ArrowMisread`, `ArrowStream`, `ArrowValues` |
| Arrow streams: the writer and the reader as they run | `ArrowBuilder`, `ArrowWriter`, `ArrowTable`, `ArrowFrames`, `ArrowReader` |
| The command line built for Windows | `WindowsQuoter` |
| The fannkuch benchmark's permutation loop | `Fannkuch` |
| Shared: options, arithmetic | `Wrappers`, `Arith` |

How the proofs of the two concurrent parts go: a ghost sequence gives each process (or task) one place,
and the invariant says that each queue of the state holds exactly the processes whose place it is, once each.
`Monitor*` and `Scheduler*` first show that every action keeps this (`KeepLists`), then the safety
invariants on top of it, then the theorems over runs. Machine words are bit-vectors or integers
reduced by hand; a multiplication or an addition that wraps in C wraps in the model.

How the Arrow round trip goes: a message is built backwards, so every position is a distance from the end,
and a table written earlier keeps its distance whatever is put in front. `ArrowBuild.ClosedIsRead` shows
that the reader finds each field of a closed table where the builder recorded it. From there the schema, the
batch and the body are read back part by part, `ArrowStream` joins them to `Open` and `Next`, and
`ArrowReader.RoundTrip` runs the writer's loops and then the reader's.

Five results differ from what the source's comments or a first reading suggest:

- A table written without metadata does not come back. The writer records the metadata slot even when it
  wrote none, so the slot points at the fields' length word, which the reader follows.
  `ArrowStream.OpenWithoutPairs` gives the exact condition: the table comes back if and only if it has no
  columns, or has two or three and the distance from the first link to its table ends in two, or three,
  zero octets (`ArrowMisread.Unnoticed`); that takes at least some sixteen thousand octets of column names
  (`ArrowMisread.ShortNamesNoticed`). With one column opening always fails (`ArrowStream.OneColumnRefused`).
- Releasing a mark gives back `used` exactly but not always `last`: when the head block's `used` is unchanged,
  `last` stays where it is, so a string grown inside the padding of the marked block leaves it
  higher. `Pools.Pool.Release` states the exact condition, which can be checked before the call, and
  `Pools.PaddingIsNotRestored` runs the arena into the case that misses it.
  Nothing that was live when the mark was taken is affected.
- `m9_utf_get` of `m9_utf_put` is the identity below 0x200000, not on all 32-bit values; on Unicode scalars
  it always is (`Utf8.GetOfPut`, `Utf8Text.DecodeOfEncode`).
- The scheduler's put-back of a picked task into its slot never displaces another: the slot is always empty then,
  so the push in that branch is never reached in any run (`SchedulerRuns.NothingDisplaced`).
- The multiplication path of the decimal parser is exact for every power up to 10^55, the whole range in which a
  table entry holds 5^q exactly, not only to 10^27.

## Model

| member | source | states |
|---|---|---|
| Utf8.SeqOfPut | runtime/m9rt.c:693-757 | the validator takes exactly the octets the encoder wrote for a scalar, whatever follows them |
| Utf8.GetOfPut | runtime/m9rt.c:698-716 | decoding an encoded character gives it back if and only if it is below 0x200000, and its first octet tells its length |
| Utf8.PutOfGet | runtime/m9rt.c:1260-1275 | a sequence the validator takes decodes to a scalar whose encoding is that sequence: no overlong form, surrogate or value past 0x10FFFF is taken |
| Utf8Text.EncodeConcat | runtime/m9rt.c:719-733 | encoding distributes over concatenation |
| Utf8Text.AcceptsIffWellFormed | runtime/m9rt.c:735-757 | the sequence loop accepts a text if and only if it is the encoding of some sequence of Unicode scalars |
| Utf8Text.FirstBadMeaning | runtime/m9rt.c:931-947 | the offset the validator stops at ends a well-formed prefix, and no scalar's encoding starts there |
| Utf8Text.EncodeOfDecode | runtime/m9rt.c:1278-1293 | decoding an accepted text and encoding again gives the same octets |
| Utf8Text.DecodeOfEncode | runtime/m9rt.c:719-733 | encoding and decoding gives the characters back if and only if each is below 0x200000; the length always agrees |
| Utf8Text.DecodeUnique | runtime/m9rt.c:1278-1293 | a text is the encoding of only one sequence of scalars: the one it decodes to |
| Utf8Text.ConcatWellFormed | runtime/m9rt.c:1295-1315 | a concatenation of well-formed texts is well formed and decodes to the two decodings in order |
| Utf8Text.BoundaryIsPrefix | runtime/m9rt.h:366-385 | an offset passes the continuation-octet test if and only if it is the end of a whole number of characters |
| Utf8Text.TakenIsCharacters | runtime/m9rt.h:366-385 | every slice that is accepted is the encoding of a run of whole characters |
| Utf8Text.SliceIsCharacters | runtime/m9rt.h:366-385 | a slice is accepted if and only if it is such a run at that place, and then it is well formed |
| Utf8Vector.OneSequence | runtime/m9rt.c:775-817 | standing on a complete sequence, the three-table lane errors over the next sequence's octets are clean exactly when the loop takes that sequence, whose length they then agree on |
| Utf8Vector.AsciiRun | runtime/m9rt.c:775-850 | a run of ASCII octets has no lane error exactly when nothing before it was left incomplete, which is why whole ASCII blocks may be skipped |
| Utf8Vector.CleanIffAccepted | runtime/m9rt.c:775-850 | no lane of a text padded with zeros has an error if and only if the sequence loop accepts the text |
| Utf8Vector.LaneErrorsAt | runtime/m9rt.c:775-817 | the error vector of one 16-octet block and the block before it is zero exactly when no octet of the block is in error, across the block boundary |
| Utf8Vector.Valid | runtime/m9rt.c:820-850 | the block-wise validator with its ASCII shortcut, carried incompleteness and zero-padded tail answers whether the text is well formed, for every length |
| Utf8Words.SumOfBits | runtime/m9rt.c:988-1001 | the multiply-and-shift adds the eight marker bits of a word |
| Utf8Words.WordCount | runtime/m9rt.c:988-1001 | the masks and the multiplication count the continuation octets among any eight |
| Utf8Words.WordAt | runtime/m9rt.c:988-1001 | one step of the counter adds exactly the continuation octets of the eight octets it loads |
| Utf8Words.HighBits | runtime/m9rt.c:931-947 | a word masked with 0x80 in every octet is zero if and only if all eight octets are ASCII |
| Utf8Runtime.AsciiPrefix | runtime/m9rt.c:931-939 | skipping eight octets at a time stops within eight octets of the first that is not ASCII |
| Utf8Runtime.Check | runtime/m9rt.c:931-947 | -1 exactly on well-formed UTF-8, with the block-wise validator or without it; else the offset of the first ill-formed sequence, after a well-formed prefix |
| Utf8Runtime.SequenceLoop | runtime/m9rt.c:940-947 | the loop finds the first position where no sequence can be taken |
| Utf8Runtime.FromChars | runtime/m9rt.c:719-733 | counts, then writes: the buffer is filled exactly, with the encoding of the characters |
| Utf8Runtime.PutAt | runtime/m9rt.c:698-716 | writes one character's encoding and touches no other octet |
| Utf8Runtime.ToChars | runtime/m9rt.c:1278-1293 | the characters of a well-formed text: all scalars, and encoding them gives the text |
| Utf8Runtime.Next | runtime/m9rt.h:388-401 | one step of the text walk takes exactly the next character and leaves a well-formed rest |
| Utf8Runtime.Walk | runtime/m9rt.h:388-401 | the whole walk sees the decoding of the text, in order, and ends at its end |
| Utf8Runtime.CountOfEncode | runtime/m9rt.c:988-1001 | octets less continuation octets is the number of characters |
| Utf8Runtime.CpCount | runtime/m9rt.c:988-1001 | the word-parallel count equals the decoded length on well-formed text |
| TextOrder.CmpTransitive | runtime/m9rt.c:1193-1199 | the length-aware memcmp order is transitive |
| TextOrder.CmpSame | runtime/m9rt.c:1193-1199 | two texts compare equal if and only if they are the same octets, and swapping them negates the answer |
| TextOrder.OctetOrderIsCharOrder | runtime/m9rt.c:1193-1199 | comparing encodings octet by octet is comparing the texts code point by code point |
| RadixSort.PassIsStable | runtime/m9rt.c:1077-1096 | a pass changes neither which entries a key has nor the order they stand in |
| RadixSort.PassOrders | runtime/m9rt.c:1077-1096 | a pass over entries ordered by their low octets yields entries ordered by one octet more |
| RadixSort.BucketsPermute | runtime/m9rt.c:1077-1096 | the buckets together hold exactly the entries |
| RadixSort.OneBucket | runtime/m9rt.c:1086-1087 | a pass in which every key has the same octet would move nothing, so skipping it is right |
| RadixSort.Scatter | runtime/m9rt.c:1088-1092 | the counted scatter writes the buckets one after the other, each in input order, and reads its input unchanged |
| RadixSort.Pass | runtime/m9rt.c:1079-1095 | whether it moved or was skipped, the pass leaves the buckets' concatenation in the buffer that is now current |
| RadixSort.Sort | runtime/m9rt.c:1074-1098 | with payloads beside the keys or without, whatever they are: after the eight passes the buffer named by the answer holds the same entries by ascending key, those of each key in the order they had |
| RadixSort.StableOrder | runtime/m9rt.c:1146-1172 | payloads that ascend, as an index does, come out ascending among equal keys |
| StringSort.Insert | runtime/m9rt.c:1209-1218 | insertion sort of a stretch of indices: the same indices, in text order, index order among equal texts, and nothing else of the array moves |
| StringSort.MergeLoop | runtime/m9rt.c:1220-1231 | the merge loop interleaves two sorted halves into the scratch, taking from the left on equal texts, until one half runs out |
| StringSort.HalvesMeet | runtime/m9rt.c:1224-1226 | two sorted halves whose middle pair is already in order are sorted as they stand, so the merge may return at once |
| StringSort.MergeRun | runtime/m9rt.c:1220-1232 | the recursive merge sort of a stretch: a stable sort of those indices that leaves the rest of the array alone |
| StringArgsort.KeyAgrees | runtime/m9rt.c:1201-1207 | the zero-padded eight-octet key never contradicts the full comparison: a smaller key means a smaller text |
| StringArgsort.ComputeKey | runtime/m9rt.c:1201-1207 | the loop computes that key, below 2^64 |
| StringArgsort.SortRuns | runtime/m9rt.c:1245-1256 | sorting each run of equal keys in place turns a key order into the full order |
| StringArgsort.ArgsortUtf | runtime/m9rt.c:1234-1257 | the indices become the permutation of 0..n-1 that puts the texts in octet order, index order among equal texts |
| StringArgsort.SortedByCharacters | runtime/m9rt.c:1234-1257 | on well-formed texts that order is code-point order, stable |
| StringArgsort.SortedUnique | runtime/m9rt.c:1234-1257 | there is only one such permutation, so the answer does not depend on which of the sorts did the work |
| Crc32.TableStep | runtime/m9rt.c:2474-2487 | eight reflected bit steps of a register are one table entry of its low octet and a shift |
| Crc32.TableBuilt | runtime/m9rt.c:2480-2487 | the recurrence that builds table k makes it a byte's CRC carried through k more zero bytes |
| Crc32.FourFed | runtime/m9rt.c:2511-2530 | four octets folded into the register and then carried through four zero octets are four single steps |
| Crc32.FourTables | runtime/m9rt.c:2511-2530 | four table entries of a word's octets combine to the word carried through that many zero octets |
| Crc32.EightAt | runtime/m9rt.c:2517-2526 | the eight table lookups of one round equal eight bit-at-a-time steps over the eight octets |
| Crc32.CrcConcat | runtime/m9rt.c:2511-2530 | summing in pieces, each started from the last answer, is summing the concatenation |
| Crc32.Build | runtime/m9rt.c:2476-2487 | the built tables hold what they should at all 8 x 256 places |
| Crc32.RawPortable | runtime/m9rt.c:2511-2530 | slicing by eight equals the bit-at-a-time CRC (section 8 of RFC 1952) for every start state and buffer |
| Sha256.CompressInPlace | runtime/sha256shim.c:77-102 | the sixty-four rounds over eight working words equal the compression function on values (section 6.2.2 of FIPS 180-4) |
| Sha256.BlocksConcat | runtime/sha256shim.c:113-130 | hashing whole blocks is compositional |
| Sha256.PadCountLeast | runtime/hashshim.c:93-109 | the zero count of the padding is the least that makes the message a whole number of blocks (section 5.1.1 of FIPS 180-4) |
| Sha256.DigestOfTail | runtime/hashshim.c:84-109 | the digest is the whole blocks' state carried over the tail and its padding, wherever the tail is cut on a block boundary |
| Sha256Stream.Stream.constructor | runtime/sha256shim.c:104-111 | a fresh state stands for the empty message |
| Sha256Stream.Stream.Update | runtime/sha256shim.c:113-130 | after any update the state stands for the message so far followed by the new octets: the buffer holds its last total-mod-64 octets and the hash words its whole blocks |
| Sha256Stream.FinalBlocks | runtime/sha256shim.c:132-146 | one or two final blocks, as the buffer allows, are the standard's padding of the whole message |
| Sha256Stream.Stream.Final | runtime/sha256shim.c:132-153 | the streamed digest is the one-shot digest of everything fed, however it was cut |
| Sha256Stream.Sha256Hex | runtime/hashshim.c:84-120 | the one-shot form answers the lower-case hexadecimal of that same digest |
| TrailingZeros.StepExact | runtime/m9rt.c:2634-2648 | multiply, rotate, compare: the rotated product is below the limit if and only if the number divides by that power of ten, and then it is the quotient, although the first two multipliers are inverses only modulo 2^56 and 2^60 |
| TrailingZeros.Take | runtime/m9rt.c:2636-2647 | one step divides exactly when it can, and its result does not divide by that power again unless the input divided by its square |
| TrailingZeros.Rtz | runtime/m9rt.c:2634-2648 | the number equals the result times ten to the power taken off, at most 15, and the result does not divide by ten unless 15 were taken |
| DecimalScan.SaturatedMeaning | runtime/m9rt.c:2068-2074 | the capped exponent sum equals the written exponent below a million and stays out of range from there on |
| DecimalScan.MeaningFits | runtime/m9rt.c:2053-2064 | nineteen significant digits never leave 64 bits, and a number is answered only when it is not zero |
| DecimalScan.ScanDigits | runtime/m9rt.c:2053-2064 | a run of digits is read whole into the accumulated number unless a twentieth significant digit turns up |
| DecimalScan.ScanExponent | runtime/m9rt.c:2066-2076 | the optional exponent is read whole, or not at all when no digit follows |
| DecimalScan.Scan | runtime/m9rt.c:2049-2079 | the scanner answers sign, integer, power of ten and length exactly as the text means them, or that it is not such a decimal |
| DecimalLayout.LayoutIsRead | runtime/m9rt.c:2745-2796 | for every sign, significand below 10^17 and exponent the layout can write, the printed text is scanned whole into a number of the same sign with w*10^q equal to the printed value |
| DecimalLayout.Print | runtime/m9rt.c:2763-2795 | the in-place printer writes exactly that layout of the number without trailing zeros, in at most 24 characters |
| DecimalLayout.WriteDigits | runtime/m9rt.c:2770-2775 | digits written low first and reversed in place are the number's decimal text |
| DecimalLayout.Place | runtime/m9rt.c:2776-2795 | the fixed and scientific branches write the chosen layout at the offset and nothing before it |
| PowerLog.LogExact | runtime/m9rt.c:2001-2044 | the linear estimate of log2 5^q used for the exponent is exact for 0 <= q <= 342, so for every non-negative power of the table: 5^q lies between the two powers of two |
| DoubleRounding.NearestIsNearest | runtime/m9rt.c:2001-2044 | the 53-bit rounding used as the reference is no farther from the value than any other 53-bit number at any exponent, and even on ties (section 4.3.1 of IEEE 754-2008) |
| EiselLemire.ProductExact | runtime/m9rt.c:2012-2023 | the 128-bit product with its conditional second multiplication and carry has the upper bits of the exact 192-bit product; what it leaves out cannot change them |
| EiselLemire.NoTieAbove | runtime/m9rt.c:2031-2036 | past 10^23 no product of a 64-bit integer with the power of five lies halfway between two doubles |
| EiselLemire.TieExact | runtime/m9rt.c:2031-2036 | the tie test on the two kept words is true if and only if the exact product is a tie to an even lower neighbour |
| EiselLemire.NearestByProduct | runtime/m9rt.c:2024-2044 | rounding the top 54 bits of the product is rounding the decimal value itself |
| EiselLemire.ExactPath | runtime/m9rt.c:2010-2044 | the non-Clinger path assembles the bits of the nearest double, ties to even, for 0 <= q <= 55 and every non-zero 64-bit w |
| EiselLemire.ElCompute | runtime/m9rt.c:2001-2044 | zero keeps its sign, powers outside the table are declined, and in the exact range the answer is the correctly rounded double whichever path was taken |
| MonitorProof.KeepLists | runtime/m9rt.c:4715-4900 | every action keeps each process in exactly one place and each queue holding exactly the processes whose place it is, without repeats |
| MonitorSafety.KeepNoneLost | runtime/m9rt.c:4715-4771 | every action keeps a queued entrant attended to |
| MonitorSafety.KeepGood | runtime/m9rt.c:4715-4900 | every action of every process keeps the whole invariant |
| MonitorRuns.RunsKeep | runtime/m9rt.c:4715-4900 | any list of actions that could happen keeps the invariant |
| MonitorRuns.Exclusion | runtime/m9rt.c:4715-4749 | in every reachable state at most one process has the mutex and at most one the spin lock |
| MonitorRuns.EntrantNotLost | runtime/m9rt.c:4715-4771 | in every reachable state a non-empty entry queue has the mutex held, or a leaver that has unlocked and is yet to pop, or an entrant popped or just queued that is still to try again |
| MonitorRuns.WinnerIsTail | runtime/m9rt.c:4731-4744 | an entrant whose second try succeeds is still the tail, so unlinking it leaves the rest of the queue as it was |
| MonitorRuns.ExactlyOnePlace | runtime/m9rt.c:4715-4900 | a process that has joined the entry queue and not left it, or is parked, or in WAIT, is in exactly one of: the entry queue, the wait queue, the deferred wakes, one other process's hands, or the woken; at every other point of the code it is in none |
| MonitorRuns.WokenOnce | runtime/m9rt.c:4821-4900 | for every process the times it parked are the times it was woken and one more exactly while it is still queued: no wake is lost or doubled |
| MonitorRuns.StillMeansOnlyWaiters | runtime/m9rt.c:4715-4900 | when nobody is inside and nobody is moving, no entrant is parked, no wake is owed, and those asleep are exactly the wait queue |
| MonitorRuns.SignalWakesAll | runtime/m9rt.c:4867-4900 | a SIGNAL empties the wait queue, and everyone who was in it has been woken by the time the signaller has left or waits |
| MonitorSafety.TakenFrom | runtime/m9rt.c:4755-4771 | the process that a leaver pops, hands over or wakes, or that a SIGNAL passes on, was in that queue, hand or list until then |
| MonitorRuns.FreshIsGood | runtime/m9rt.h:805-834 | a monitor as it is carved meets the invariant |
| SchedulerPlaces.StealParts | runtime/m9rt.c:3833-3873 | a steal takes and leaves, in order, disjoint parts that make up the queue, and what it takes is never a root, a pinned task or one seen on a stack |
| SchedulerProof.KeepLists | runtime/m9rt.c:3684-4001 | every action keeps each task in exactly one place, and every queue, slot and hand holding exactly the tasks whose place it is |
| SchedulerRuns.NothingDisplaced | runtime/m9rt.c:3990-3999 | in no reachable state of any run is a task given back to the slot displacing another |
| SchedulerSafety.KeepStacks | runtime/m9rt.c:3684-3715 | every action keeps the on-stack flag true exactly while one carrier runs on, or has just left, that stack |
| SchedulerSafety.KeepGoesFree | runtime/m9rt.c:3684-3715 | a carrier that switches away from a task goes to a stack that is free: only g0 waits for one |
| SchedulerSafety.KeepTasks | runtime/m9rt.c:3684-4001 | every action keeps pinned and root tasks with their home carrier, locks with the carrier that took them, and ended tasks unreachable |
| SchedulerRuns.KeepGood | runtime/m9rt.c:3684-4001 | every action of every carrier, thread and the poller keeps the whole invariant |
| SchedulerRuns.RunsKeep | runtime/m9rt.c:3684-4001 | any list of actions that could happen keeps the invariant |
| SchedulerRuns.FreshIsGood | runtime/m9rt.c:4304-4350 | the runtime as it starts meets the invariant |
| SchedulerRuns.ExactlyOnePlace | runtime/m9rt.c:3684-4001 | in every reachable state a live task is in exactly one place: running, one run queue, one slot, a carrier's hands or loot, a monitor, or the poller; a task not live is in none |
| SchedulerRuns.StacksApart | runtime/m9rt.c:3684-3715 | no two carriers ever use one task's stack, and a stack in use is never freed |
| SchedulerRuns.WaitsAreShort | runtime/m9rt.c:3990-4001 | only a carrier on its own g0 spins for a stack, and the carrier it waits for does not spin and does not sleep: waits have length one and cannot form a cycle |
| SchedulerRuns.RunsAtHome | runtime/m9rt.c:3702-3715 | a running task's home is the carrier it runs on |
| SchedulerRuns.UnlockedWhereLocked | runtime/m9rt.c:3659-3665 | every mutex a running task holds was locked on the carrier that now runs it, so it is unlocked by the thread that locked it |
| SchedulerRuns.SlotHoldsNoPinned | runtime/m9rt.c:3833-3857 | the slot never holds a pinned or a root task, which is why the late steal of it need not test |
| SchedulerRuns.PinnedStaysHome | runtime/m9rt.c:3833-3873 | in any run, a task that is pinned in every state keeps its home in every state, and no other carrier is ever on its stack |
| SchedulerRuns.RootStaysHome | runtime/m9rt.c:3833-3873 | so does every root, a worker's own root included, in every run |
| SchedulerRuns.SleepsWithNothing | runtime/m9rt.c:3936-3947 | a sleeping carrier has an empty slot, is on g0, and has an empty queue unless it has been signalled |
| SchedulerRuns.FreedIsGone | runtime/m9rt.c:3673-3700 | a freed task has ended, is on no stack and in no place |
| SchedulerRuns.QuietMeansAllWait | runtime/m9rt.c:3912-3928 | when the deadlock test finds everything quiet, every live task is parked in a monitor |
| SchedulerRuns.QuietForEver | runtime/m9rt.c:3912-3928 | and then nothing but a thread or the poller can ever wake one: every run of the carriers leaves the tasks as they are |
| SchedulerRuns.QuietIsIdle | runtime/m9rt.c:3912-3928 | in a reachable quiet state every carrier is asleep unsignalled with nothing in hand |
| TaskPoller.RisingStep | runtime/m9rt.c:4431-4436 | one swap with the parent keeps the heap in order but for the risen entry |
| TaskPoller.SinkingStep | runtime/m9rt.c:4438-4450 | one swap with the earlier child keeps the heap in order but for the sunk entry |
| TaskPoller.FirstIsEarliest | runtime/m9rt.c:4431-4450 | in an ordered heap the first deadline is the earliest |
| TaskPoller.Poller.HeapUp | runtime/m9rt.c:4431-4436 | an entry placed anywhere rises to where the order holds above it, back-pointers exact |
| TaskPoller.Poller.HeapDown | runtime/m9rt.c:4438-4450 | and sinks to where it holds below: the whole heap is in order again |
| TaskPoller.Poller.HeapAdd | runtime/m9rt.c:4452-4466 | adds one deadline, growing by doubling from 64; without memory nothing changes |
| TaskPoller.Poller.HeapDel | runtime/m9rt.c:4468-4478 | removes a task's deadline from any position, or does nothing if it has none; the rest stays a heap with exact back-pointers |
| TaskPoller.Poller.First | runtime/m9rt.c:4640-4650 | a task stands first if and only if no deadline is earlier, so the poller is woken exactly when its sleep would be too long |
| TaskPoller.Poller.ParkPoll | runtime/m9rt.c:4607-4656 | a park on a descriptor, a deadline or both is recorded in both or in neither: a failed park leaves nothing behind |
| TaskPoller.Poller.Wake | runtime/m9rt.c:4495-4519 | a wake takes the deadline out, clears the descriptor and makes the task ready once |
| TaskPoller.Poller.Descriptors | runtime/m9rt.c:4547-4557 | each descriptor event wakes its task unless an earlier event of the batch already did |
| TaskPoller.Poller.Timers | runtime/m9rt.c:4558-4566 | wakes exactly the tasks whose deadline has passed, earliest first, and leaves no expired one |
| TaskPoller.Poller.Batch | runtime/m9rt.c:4547-4570 | of one batch of events and one look at the clock each parked task is woken at most once, by its descriptor if that fired, else by its deadline if that passed, and what is left of neither remains in the heap or on the task |
| TaskPoller.NextInOrder | runtime/m9rt.c:4558-4566 | taking the first deadline each time takes them in order |
| PoolBlocks.AlignExact | runtime/m9rt.c:458-470 | rounding a size up to 16 does not wrap for any size below 2^64 - 15, and is the least multiple not below it |
| PoolBlocks.Block.Carve | runtime/m9rt.c:500-521 | a carve hands out zeroed octets between the old top and the new, inside the block; every live slice still reads what it read |
| PoolBlocks.Block.Extend | runtime/m9rt.c:592-626 | growing the last slice in place appends to its text and changes no other live slice |
| PoolBlocks.Block.Lower | runtime/m9rt.h:1100-1109 | a release lowers the top to the mark, and the slices kept below it still read the same |
| PoolBlocks.Cache.BigTake | runtime/m9rt.c:266-282 | takes the smallest kept block that is large enough and at most four times what is needed, or none if no kept block is; the held total stays exact |
| PoolBlocks.Cache.BigKeep | runtime/m9rt.c:284-293 | keeps a block only within the limit and the slots, counted exactly |
| PoolBlocks.Cache.KeepAtMost | runtime/m9rt.c:326-339 | after the limit is lowered the cache holds no more than it, and keeps no block it did not have |
| PoolBlocks.Cache.Acquire | runtime/m9rt.c:474-498 | a block that is large enough, from the cache or fresh, which then belongs to the pool alone |
| PoolBlocks.Cache.BlockBack | runtime/m9rt.c:526-546 | a block given back is in the cache once or freed; the standard ones up to the cap |
| Pools.Pool.AcceptedFits | runtime/m9rt.c:450-472 | a request that passes the overflow tests has a product that does not wrap and can be rounded up |
| Pools.GrownTransitive | runtime/m9rt.c:450-680 | growth composes: over any sequence of carves and concatenations every slice live at the start is live at the end with the same text |
| Pools.GrownAfterRelease | runtime/m9rt.c:562-576 | growth survives an inner release back to its mark |
| Pools.Pool.Alloc | runtime/m9rt.c:450-521 | a refused or failed request changes nothing; a carve is zeroed, inside its block, above every slice of before, and every live slice of the pool reads the same |
| Pools.Pool.CatExtend | runtime/m9rt.c:592-656 | a left operand that ends at the arena's top grows in place: no carve, nothing else changed |
| Pools.Pool.Cat | runtime/m9rt.c:660-680 | a followed by b, and every slice live before still reads the same; a grows in place, and only its block's top with it, exactly when it ends at the arena's top and has room, else both are copied |
| Pools.Pool.TakeMark | runtime/m9rt.h:1088-1096 | the mark names the head and its two tops |
| Pools.Pool.Release | runtime/m9rt.c:562-576 | every block newer than the mark goes back, the marked head's top is lowered, and every slice live at the mark reads what it read then; the whole mark is restored if and only if the head's used had risen or its last had not moved |
| Pools.PaddingIsNotRestored | runtime/m9rt.h:1100-1109 | a run of a new arena that misses it: one octet carved, marked, one more grown in its padding, released, leave last one higher than the mark |
| Pools.Pool.Back | runtime/m9rt.c:570-575 | lowers the marked block's top: used and the live slices go back to the mark, and last exactly when used had risen |
| Pools.Pool.Adopt | runtime/m9rt.c:1379-1399 | the other pool's blocks go behind the head of this one; every slice of either reads the same and the other pool is empty |
| WindowsQuoter.BodyRead | runtime/m9rt.c:5391-5407 | read by the MS-CRT rule, the quoted body up to its closing quote is the argument |
| WindowsQuoter.QuotedRead | runtime/m9rt.c:5385-5410 | one quoted or plain argument is read back whole, whatever arguments follow |
| WindowsQuoter.SplitGivesBack | runtime/m9rt.c:5379-5410 | splitting quoted arguments gives the argument list back, for every list: empty arguments, blanks, quotes and runs of backslashes included |
| WindowsQuoter.LineGrows | runtime/m9rt.c:5396-5397 | one more argument on the line is one more blank and one more quoted text at its end |
| WindowsQuoter.CommandLine.QuoteAll | runtime/m9rt.c:5551-5555 | quoting a whole list, one call after another, builds the program's name and then the line, whose part after the name splits into the arguments again; no name, or memory running out, is a failure |
| WindowsQuoter.CommandLine.Quote | runtime/m9rt.c:5385-5410 | appends exactly that text, within the room reserved (twice the length and four), or changes nothing without memory |
| WindowsQuoter.CommandLine.PutRun | runtime/m9rt.c:5394-5405 | one run of backslashes and what follows it is written as the rule needs, in at most twice the octets read |
| Fannkuch.FlipGrows | bench/fannkuch_c.c:44-50 | each flip makes the sum of 2^i over the fixed points i larger, so the flip loop ends on every permutation |
| Fannkuch.CountFlips | bench/fannkuch_c.c:41-50 | the in-place loop counts the flips of the deck as it was |
| Fannkuch.FullCounter | bench/fannkuch_c.c:38-60 | a counter that is full again stands for having the whole next level still ahead |
| Fannkuch.VisitsCount | bench/fannkuch_c.c:32-63 | n! decks are visited |
| Fannkuch.EachPermutationOnce | bench/fannkuch_c.c:32-63 | the decks visited are exactly the permutations of 0..n-1, each once |
| Fannkuch.Advance | bench/fannkuch_c.c:53-61 | the rotation and the counters step to the next deck of the order, or past the last |
| Fannkuch.Run | bench/fannkuch_c.c:32-63 | the loop visits that whole order before it returns, and answers the greatest flip count and the alternating checksum over it |
| Fannkuch.AnswerIsGreatest | bench/fannkuch_c.c:32-63 | no permutation needs more flips than the answer, and one needs as many |
| ArrowBytes.LittleIsRead | runtime/gen/Arrow.c:1718-1763 | a number in range is read back from the octets it was written as, unsigned and in two's complement |
| ArrowBytes.ReadLE | runtime/gen/Arrow.c:3394-3465 | the reading loops, the one for the negative numbers included, answer the number the octets mean, or IndexError past the end |
| ArrowBytes.PutLE | runtime/gen/Arrow.c:1718-1763 | writes a number's octets, low first, and no other octet |
| ArrowBuild.ClosedIsRead | runtime/gen/Arrow.c:2202-2282 | in a closed table the reader finds every field exactly where it was recorded, and none that was left out or is past the end |
| ArrowBuild.ScalarField | runtime/gen/Arrow.c:3539-3567 | a number put as a field is read back from it |
| ArrowBuild.TextField | runtime/gen/Arrow.c:3569-3607 | a string linked from a field is read back from it |
| ArrowBuild.VectorField | runtime/gen/Arrow.c:3609-3647 | a vector linked from a field is found with its length |
| ArrowSchema.TypeIsRead | runtime/gen/Arrow.c:2338-2407 | every type's table reads back as that type, an unknown number as I64, which it was written as |
| ArrowSchema.FieldIsRead | runtime/gen/Arrow.c:2409-2472 | a column's table reads back as its name and type |
| ArrowSchema.KvIsRead | runtime/gen/Arrow.c:2474-2513 | a metadata pair's table reads back as its key and value |
| ArrowSchema.VectorIsRead | runtime/gen/Arrow.c:2515-2556 | every link of a vector leads to the table it was made for |
| ArrowMessage.SchemaIsRead | runtime/gen/Arrow.c:2558-2663 | the schema table reads back as the columns' names and types and the metadata, if there is any |
| ArrowMessage.SchemaWithoutPairs | runtime/gen/Arrow.c:2593-2601 | without metadata it reads back if and only if what is misread as the number of pairs is 0 |
| ArrowMessage.FinishIsRead | runtime/gen/Arrow.c:2284-2302 | a finished message starts with the position of its root, in padding of less than sixteen octets |
| ArrowMisread.MisreadIsNothing | runtime/gen/Arrow.c:2593-2601 | and that is so if and only if there are no columns, or two or three and the first link's low two or three octets are 0 |
| ArrowMisread.ManyLinks | runtime/gen/Arrow.c:2515-2556 | the distances in a vector of links fall, so past three links the four octets that many octets in are never all 0 |
| ArrowMisread.ShortNamesNoticed | runtime/gen/Arrow.c:2593-2601 | with columns whose names reckon to less than 65000 octets it is never so |
| ArrowBatch.BatchIsRead | runtime/gen/Arrow.c:2665-2811 | the batch table reads back as its rows, a node for each column and the places of its buffers |
| ArrowBody.PackedIsRead | runtime/gen/Arrow.c:1718-1763 | each number of a packed buffer is read back |
| ArrowBody.BufferStands | runtime/gen/Arrow.c:2986-3118 | what the layout names of the body is that buffer's octets, for every buffer |
| ArrowStream.OpenIsRead | runtime/gen/Arrow.c:870-1028 | opening the stream of any table with metadata that the format can carry gives its names, types and metadata back |
| ArrowStream.NextBatchIsRead | runtime/gen/Arrow.c:1151-1374 | then one batch is read, with every column's octets and no nulls, and after it the stream is at its end |
| ArrowStream.OpenWithoutPairs | runtime/gen/Arrow.c:2593-2601 | a table without metadata comes back if and only if the reader does not notice the slot recorded for it |
| ArrowStream.OneColumnRefused | runtime/gen/Arrow.c:2593-2601 | the stream of one column and no metadata cannot be opened |
| ArrowValues.IntsAreRead | runtime/gen/Arrow.c:1552-1617 | the integer getter answers every number of an integer or timestamp column as it was written, at every width |
| ArrowValues.FloatsAreRead | runtime/gen/Arrow.c:1476-1550 | the float getter answers every bit pattern of an F32 or F64 column as it was written |
| ArrowValues.StringIsRead | runtime/gen/Arrow.c:1619-1683 | the string getter answers every cell of a string column as it was written |
| ArrowBuilder.Builder.Prep | runtime/gen/Arrow.c:1908-1937 | pads so that what comes next is aligned to its size, or fails exactly when the room is short |
| ArrowBuilder.Builder.PutNumber | runtime/gen/Arrow.c:1992-2070 | an aligned number is put in front of what there is, which stays as it was |
| ArrowBuilder.Builder.PutText | runtime/gen/Arrow.c:2095-2147 | a string with its length and closing zero is put in front, its length aligned |
| ArrowBuilder.Builder.PutRef | runtime/gen/Arrow.c:2072-2093 | a link is put in front: the distance from itself to what it names |
| ArrowBuilder.Builder.EndTable | runtime/gen/Arrow.c:2202-2282 | closes a table with its vtable, patched in place, or fails exactly when the room is short |
| ArrowWriter.WriteSchema | runtime/gen/Arrow.c:2558-2663 | the loops over columns and pairs build exactly the schema message's octets, or the room is short of them |
| ArrowWriter.WriteBatch | runtime/gen/Arrow.c:2665-2811 | the backward loops over columns and buffers build exactly the batch message's octets, or the room is short of them |
| ArrowWriter.FinishMessage | runtime/gen/Arrow.c:2284-2302 | the link to the root, so placed that the message is aligned as its most demanding part |
| ArrowTable.Table.AddInt | runtime/gen/Arrow.c:247-302 | adds a column if and only if its type is a whole number's, every value fits its width and there is one for each row |
| ArrowTable.Table.AddStr | runtime/gen/Arrow.c:348-429 | keeps the strings end to end with where each starts, if there is one for each row |
| ArrowTable.SchemaHasRoom | runtime/gen/Arrow.c:431-660 | the room the writer reckons holds the schema message of any table the format can carry |
| ArrowTable.BatchHasRoom | runtime/gen/Arrow.c:431-660 | and its batch message |
| ArrowFrames.WriteStream | runtime/gen/Arrow.c:431-660 | the stream written is the two framed messages, the body and the end mark, octet for octet; it fails only with BadArg, and never for a table the format can carry |
| ArrowReader.Reader.Open | runtime/gen/Arrow.c:870-1028 | reads the schema as the pure reader does, or fails as it does |
| ArrowReader.Reader.Next | runtime/gen/Arrow.c:1151-1374 | reads the next batch, false at the end and from then on, or fails as the pure reader does |
| ArrowReader.Reader.MetaOf | runtime/gen/Arrow.c:1111-1149 | the value of the first pair with that key, or nothing if there is none |
| ArrowReader.StreamReads | runtime/gen/Arrow.c:870-1683 | for every table with metadata that the format can carry: the stream opens to its names, types and metadata, gives one batch whose columns the getters answer as they were written, and then ends |
| ArrowReader.RoundTrip | runtime/gen/Arrow.c:431-1374 | the same, run: written by the writer's loops and read by the reader's |

## Left out

- Register switching, signal stacks, stack mapping, sanitizer hooks, futex words, epoll and kqueue: abstract steps of the scheduler, monitor and poller models.
- Memory orders weaker than sequential consistency: the fences at runtime/m9rt.c:4735 and runtime/m9rt.h:875 are taken to give it.
- The spinner and idle counters that only decide whom to wake early, the monitor thread that wakes idle carriers and asks for a yield, and starting carriers while running: the model has any fixed number of carriers, and lets a carrier look again or rise at any time.
- The deadlock test reads its counters in one step in the model; the code reads them one after another.
- Monitors nested in one another, poisoned monitors, and the WAIT that cannot allocate: one monitor at a time is modelled, and the scheduler keeps only which carrier locked what.
- SchedulerRuns.ExactlyOnePlace: liveness is not modelled; that a queued task is eventually run depends on the operating system's scheduling.
- EiselLemire.ElCompute: says nothing of its result for negative q or q above 55, where the table entry is rounded or the value is not an integer; those need the published interval argument.
- Dragonbox's main interval proof, fixed and scientific formatting and the parser's strtod fallback, which rest on a paper or on libc; hexadecimal text is only declined.
- CSV scanning, the keys that the F64 and I64 sorts make, and the file, process, clock and directory calls: easier members of the same kinds or I/O.
- The carry-less-multiplication CRC and the NEON and SSE intrinsics: the block validator is modelled once, lane by lane.
- Sha256Stream.Stream.Update: the total is not reduced modulo 2^64, so messages of 2^61 octets and more are outside it.
- Fannkuch.Run: counters are unbounded integers, while the code's are 64-bit and its deck has sixteen places.
- Pools.Pool.Cat: takes the two lengths to total less than 2^64 - 15, which no two strings in memory reach.
- The registry of pools is modelled only by each block's owner tag; poisoning, payloads in flight, and the cache limit that travels with a task are not part of the model: cache bounds are for one thread without task switches.
- A main carrier that finds no memory for its g0 and schedules on its root: the model's main carrier always has one.
- Allocation failure is a parameter of the operations that can meet it.
- MonitorSafety.TakenFrom: covers the pop, the hand-over, the wake and the passing on by a SIGNAL; making ready is `MonitorSafety.TakenMovable`.
- ArrowReader.RoundTrip: tables whose names and metadata reckon to less than 2^31 octets and whose body is below 2^62, which is what four-octet offsets and the body's length reach. Compressed bodies (the zstd codec) are left out: the modelled reader declines them.
- Streams of other producers, with nulls or time zones, go through the modelled reader, but no writer of theirs is modelled, so nothing is claimed of them beyond what the reader's functions say.
- ArrowFrames.WriteStream: the pool the octets live in, the frames and adoption of the compiled code, and memory running out are not modelled.
- ArrowMessage.Sound: strings are well-formed UTF-8, as the language's type promises.
- WindowsQuoter.CommandLine.QuoteAll: the program's name is split by a rule of its own, which knows no backslashes; only the arguments after it are claimed to come back.
