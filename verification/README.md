# Verified model of the accelerator stack

The repository drives a systolic-array accelerator: lists of 64-byte commands are generated, merged,
executed out of order on four engines (LD, ST, EX, VE), and must still mean what a plain sequential
program means. This project models the parts on which that rests and proves them in Dafny:

1. **The batch list scheduler** of the runtime: it merges recorded dispatches into one list, drops
   FENCEs, and moves weight-loading prefixes. The machine it targets keeps local-bank hazards in list
   order but lets LD and ST reach DDR in any order a FENCE does not forbid. In every such order the
   merged list leaves the memory the dispatches leave one by one.
2. **The device arena**: a first-fit allocator with headers in the heap, lazy merging, and free by any
   pointer inside a block.
3. **The bit-exact binary32 arithmetic** of the vector engine, against exact rational results rounded
   to nearest even (section 4.3.1 of IEEE 754-2019), with flush to zero and the canonical NaN.
4. **The list generators and the simulator**: double-buffered, tiled, looped linear layers; the
   prefetch of weights across the layers of a token list; batched layers of D sequences; the int32
   matrix product and its firmware form. Each list, run, computes its reference.
5. **The decode loop on the RISC-V core**: one table image patched from bucket to bucket, a mask kept
   up to date word by word and a two-level argmax refine the plain host loop.
6. **Prefill against decode**: layer-major chunks with an overlapping last chunk leave the caches and
   the logits of position-major decoding.
7. **The tokenizer's heap BPE** against repeated merging of the best pair, and **the command ring**
   between the host and the firmware as interleaved steps.

Fp32 lane operations are opaque in parts 1, 5 and 6 and exact in parts 3 and 4. The array size D is
a parameter everywhere.

## Modules

| part | modules |
|---|---|
| scheduler | Machine, Ranges, BatchList, BatchFences, BatchPieces, BatchExact, BatchRegs, BatchOrder, BatchMeaning, BatchBuild, BatchContext, BatchUnsettled |
| arena | ArenaList, Arena |
| shared | Dyadic, Options |
| binary32 | Fp32, Rounding, FpExact, FpConvert, FpBits |
| linear layer | LoopMachine, LinearList, LinearLoop, SimOps, LinearMeaning, LinearChunk, LinearRun, LinearScale, LinearLegal, SimRun |
| token list | TokenBanks |
| matrices | MatrixMachine, MatrixSteps, GemmList, GemmMeaning, GemmRun, GemmProduct, GemmStream, Batched, BatchedSteps, BatchedRun |
| decode loop | RvKey, RvHost, RvTrace, RvTable, RvCore |
| prefill | Attention, Prefill |
| tokenizer, ring | Bpe, BpeHeap, Ring, RingSafe, RingLive |

A class or a method stands where the source changes state; its `ensures` ties it to a specification
function, and the lemmas state what the source promises about that function. Every lemma carries
`{:induction false}`: its proof is its body.

## What was found

- A barrier's flag is consumed by the very next dispatch (sa_context.c:363-366), and the conflict test
  is skipped for dispatches without the flag (line 404). "A; barrier; B; C" where only C conflicts with
  A gets no FENCE. `BatchFences.FencesAreEnough` gives the exact condition, `Settled`;
  `BatchUnsettled.UnsettledGoesWrong` is a batch that ends with a stale value.
- The descriptors set aside for a batch (sa_context.c:329-331) always suffice (`BatchBuild.ListFits`), though one
  turn can write one more than its own dispatch's share: the dispatch whose prefix it hosts leaves that
  much unused (`BatchBuild.TurnOverShare`).
- `LOOP_END` has a 16-bit count: a layer of more than 131072 chunks in looped form runs too few
  iterations, or stops (`LinearLoop.LoopedIffCountFits`).
- A zero-byte allocation's own pointer is found by the arena only when the free run it was cut from
  leaves the block larger than its header (`Arena.RequestFound`), and a request within 31 bytes of 2^64
  wraps (`Arena.NeedIsEnough`).
- The board transport does not check for room in the ring. After a wait that timed out, a posted
  submission can be lost: on a ring of one slot the firmware runs the second one's words as the first
  (`RingSafe.LostSubmission`). Posting is safe exactly below a bound of size submissions unserved, one
  more once the entry being served has been read (`RingSafe.BoundIsExact`).
- The simulator's range check takes a word of the second operand for every group, also where the index
  divides: a linear layer is refused unless ACC goes on for a chunk's results after s_x, though only one
  word a row is read (`LinearLegal.LinearIsLegalIff`).
- The argmax picks the first largest logit except when an earlier block's maximum is -0 and the largest
  is +0 (`RvKey.PickIsFirstIff`).

## Model

| member | source | states |
|---|---|---|
| Ranges.RangeSet.Add | compiler/runtime/sa/sa_context.c:313-318 | after any number of additions the set stands for every range added, past its 256 entries for all of DDR |
| Ranges.RangeSet.Overlaps | compiler/runtime/sa/sa_context.c:320-327 | the answer for the ranges added since the last clearing: a full set hits every nonempty query, an empty query hits nothing |
| Ranges.RangeSet.Clear | compiler/runtime/sa/sa_context.c:421-422 | a cleared set stands for nothing, also when it had overflowed |
| Ranges.SharedByteHits | compiler/runtime/sa/sa_context.c:320-327 | a byte common to both sides is never missed |
| BatchList.BestHostIs | compiler/runtime/sa/sa_context.c:389-391 | the host found has a head, hosts nothing yet, and from it to the prefix's owner no dispatch touches SPAD_B |
| BatchList.BestHostIsEarliest | compiler/runtime/sa/sa_context.c:381-391 | the host found is the earliest dispatch that could have been one |
| BatchList.HostingIsValid | compiler/runtime/sa/sa_context.c:386-396 | each prefix is hosted at most once, each host takes at most one, no dispatch of the list stores to what a hosted prefix loads, and the two marks agree |
| BatchFences.ScanIsExact | compiler/runtime/sa/sa_context.c:399-448 | the two range sets hold exactly the ranges loaded and stored since the last FENCE of that engine, hoisted and hosted prefixes included |
| BatchFences.MaskClears | compiler/runtime/sa/sa_context.c:404-424 | after the FENCE with the mask chosen, a dispatch clashes with nothing outstanding |
| BatchFences.SettledSeparates | compiler/runtime/sa/sa_context.c:397-447 | every store that a later dispatch's load or store overlaps has a FENCE with the ST bit in between, every load that a later store overlaps one with the LD bit |
| BatchFences.FencesAreEnough | compiler/runtime/sa/sa_context.c:404-424 | that separation holds if and only if each dispatch recorded without a barrier clashes with nothing outstanding at its turn |
| BatchExact.FencesAreNeeded | compiler/runtime/sa/sa_context.c:401-424 | what stands before each dispatch in the list: a FENCE with the ST bit exactly when it has its barrier flag, is not the first, and an earlier piece's stores that no such FENCE follows overlap its loads or stores, or more than 256 stored ranges are outstanding; with the LD bit the same for earlier loads against its stores; before it the dispatch's prefix exactly when that has not run yet and need not wait |
| BatchExact.PrefixRunsInside | compiler/runtime/sa/sa_context.c:381-396 | a prefix runs right after dispatch j's head exactly when no store of the list, of at most 256 ranges, overlaps its loads and j is the first dispatch with a head, free of an earlier dispatch's prefix, from which on nothing touches SPAD_B |
| BatchExact.PrefixIsHostedIff | compiler/runtime/sa/sa_context.c:381-396 | so a prefix is moved exactly when its loads are clear and some dispatch could host it |
| BatchExact.ScanIsCounted | compiler/runtime/sa/sa_context.c:313-318 | the range sets received as many ranges as the pieces since the last FENCE brought |
| BatchPieces.EveryPieceOnce | compiler/runtime/sa/sa_context.c:401-448 | every prefix, head and body is called exactly once, and in that order within a dispatch, wherever the prefix was moved |
| BatchRegs.ListFeedsSchedule | compiler/runtime/sa/sa_context.c:430-445 | decoded from any register contents, the merged list feeds each piece's own commands: no dispatch sees another one's registers or BASE15 |
| BatchRegs.DispatchFeeds | compiler/runtime/sa/sa_context.c:265-274 | the same for the list of one dispatch |
| BatchOrder.PairFenced | firmware/include/sysarray_intrinsics.h:73-79 | two commands of different dispatches that only DDR relates have a FENCE for the first one's engine between them |
| Machine.BlocksCommute | firmware/include/sysarray_intrinsics.h:73-79 | two blocks of commands none of which touches what the other's write can be exchanged |
| Machine.EveryCompletionOrderAgrees | firmware/include/sysarray_intrinsics.h:73-79 | if every conflicting pair of a list is kept in order by a bank or a FENCE, every completion order ends with the memory of list order |
| BatchMeaning.ScheduleIsOrdered | compiler/runtime/sa/sa_context.c:397-447 | every two conflicting commands of the merged list keep their order |
| BatchMeaning.OneInFlight | compiler/runtime/sa/sa_context.c:386-396 | at most one moved prefix waits in SPAD_B at any time |
| BatchMeaning.WindowIsQuiet | compiler/runtime/sa/sa_context.c:386-396 | while it waits, nothing touches SPAD_B and nothing else is hosted |
| BatchMeaning.ScheduleMeansOneByOne | compiler/runtime/sa/sa_context.c:375-451 | in list order, moving prefixes into earlier dispatches and before FENCEs changes nothing |
| BatchMeaning.OneByOneIs | compiler/runtime/sa/sa_context.c:259-290 | dispatches submitted one list at a time leave the memory of their own commands, whatever the registers hold |
| BatchMeaning.MergedListMeansOneByOne | compiler/runtime/sa/sa_context.c:375-451 | the scheduler's promise: every completion order of the merged list ends with the memory of the recorded dispatches run one by one |
| BatchBuild.ListFits | compiler/runtime/sa/sa_context.c:329-331 | the list of any batch stays within the descriptors set aside for its dispatches |
| BatchBuild.EveryPrefixFits | compiler/runtime/sa/sa_context.c:377-451 | so does everything emitted up to any dispatch: the buffer is never overrun on the way |
| BatchBuild.TurnOverShare | compiler/runtime/sa/sa_context.c:329-331 | one turn can write one descriptor more than its own dispatch's share: a concrete batch, in which the hosted dispatch writes fewer than its own |
| BatchContext.ListBuffer.EmitSetRegs | compiler/runtime/sa/sa_context.c:210-214 | SETREGs of three registers each, in order, appended to the list |
| BatchContext.Context.PlacePrefixes | compiler/runtime/sa/sa_context.c:381-396 | the marks written into the entries are the hosting whose validity is proved |
| BatchContext.Context.FindHost | compiler/runtime/sa/sa_context.c:389-391 | the backward scan finds that host, or none |
| BatchContext.Context.ConflictMask | compiler/runtime/sa/sa_context.c:404-409 | the FENCE engines of a dispatch from the two range sets |
| BatchContext.Context.EmitFence | compiler/runtime/sa/sa_context.c:404-424 | the early prefix and the FENCE written, and both sets afterwards |
| BatchContext.Context.EmitBody | compiler/runtime/sa/sa_context.c:430-445 | the SETREGs, prefixes and CALLs of a dispatch written in place, with the hosted prefix's loads added |
| BatchContext.Context.Build | compiler/runtime/sa/sa_context.c:377-451 | the buffer holds the list of the recorded dispatches and stays within the budget plus END |
| BatchContext.Context.Barrier | compiler/runtime/sa/sa_context.c:373 | the next dispatch recorded carries the flag |
| BatchContext.Context.Flush | compiler/runtime/sa/sa_context.c:453-476 | one list submitted for the recorded dispatches, none for an empty batch; entries and flag cleared; no dispatch lost |
| BatchContext.Context.Add | compiler/runtime/sa/sa_context.c:333-371 | refused exactly when its registers or ranges are too many; otherwise recorded once, after a flush exactly when the entries or the list could be full |
| BatchUnsettled.UnsettledGoesWrong | compiler/runtime/sa/sa_context.c:404 | "A; barrier; B; C" meets every assumption but Settled, and a completion order the machine allows leaves a stale value |
| ArenaList.AllocTiles | compiler/runtime/sa/sa_context.c:39-57 | allocation keeps the blocks tiling the heap in multiples of 16 bytes |
| ArenaList.FreeTiles | compiler/runtime/sa/sa_context.c:69-76 | so does a free |
| ArenaList.AllocAddsOne | compiler/runtime/sa/sa_context.c:39-57 | a successful allocation adds one used block and changes no other, and the used bytes grow by its size; a failed one changes none |
| ArenaList.FreeTakesOne | compiler/runtime/sa/sa_context.c:69-76 | a free takes exactly one block out of the used ones, and the used bytes shrink by its size |
| ArenaList.AllocSucceedsIff | compiler/runtime/sa/sa_context.c:39-57 | allocation succeeds exactly when some run of adjacent free blocks is large enough |
| ArenaList.FailsWhenAllRunsSmall | compiler/runtime/sa/sa_context.c:39-57 | it fails only if every such run is too small |
| ArenaList.TakesFirstFit | compiler/runtime/sa/sa_context.c:41-44 | the run taken is the first that is large enough |
| ArenaList.FindIs | compiler/runtime/sa/sa_context.c:62-67 | any pointer strictly inside a block finds that block |
| ArenaList.OwnPointer | compiler/runtime/sa/sa_context.c:62-67 | an allocation's own pointer is found exactly when its block is larger than a header |
| Arena.RequestFound | compiler/runtime/sa/sa_context.c:39-67 | the pointer returned for a request of at least a byte is always found; for 0 bytes exactly when the first free run large enough is more than a header and too small to be cut |
| Arena.NeedIsEnough | compiler/runtime/sa/sa_context.c:40 | the block size covers request and header exactly when the 64-bit sum does not wrap |
| Arena.NewIsApart | compiler/runtime/sa/sa_context.c:39-57 | a new allocation is 16-byte aligned, inside the heap and overlaps no live one |
| Arena.MovedCells | compiler/runtime/sa/sa_context.c:109-118 | through allocation, copy and free the copied bytes arrive and no other allocation changes |
| Arena.Heap.constructor | compiler/runtime/sa/sa_context.c:186-190 | one free block over the whole heap |
| Arena.Heap.Merge | compiler/runtime/sa/sa_context.c:43 | a free block takes in the free blocks after it; no used byte changes |
| Arena.Heap.Allocate | compiler/runtime/sa/sa_context.c:39-57 | the headers in memory after a first-fit scan that merges as it goes, heap_used and heap_peak; no used byte changes |
| Arena.Heap.Lookup | compiler/runtime/sa/sa_context.c:62-67 | the used block holding a pointer, or none |
| Arena.Heap.Release | compiler/runtime/sa/sa_context.c:69-76 | the block is free and merged forward; a foreign, null or freed pointer changes nothing |
| Arena.Heap.Malloc | compiler/runtime/sa/sa_context.c:84-98 | the status, the pointer, and for CALLOC the zeroed bytes; live allocations keep theirs |
| Arena.Heap.Realloc | compiler/runtime/sa/sa_context.c:99-120 | foreign pointers refused; a large enough block stays; a failed move changes no used byte; otherwise the old contents at a new place, the old block freed, other allocations intact |
| Dyadic.JamRounds | llm/fp32.py:88-101 | two bits below the rounding position, the last one sticky, round as all the bits would |
| Rounding.RneIsNearestEven | llm/fp32.py:63-70 | the integer rounding is a nearest 24-bit value, even on a tie |
| Rounding.NearestEvenIsUnique | llm/fp32.py:63-70 | and there is only one such value |
| Rounding.CarryIsRounding | llm/fp32.py:101-105 | the carry of a rounded significand into the exponent is the rounded value |
| FpExact.CapLosesNothing | llm/fp32.py:85-90 | the cap of the alignment shift at 60 places changes nothing |
| FpExact.GuardBitsDecide | llm/fp32.py:86-101 | three guard bits are enough, also after cancellation |
| FpExact.AlignedSumIsExact | llm/fp32.py:85-106 | the aligned sum or difference rounds the exact one; an exact cancellation gives +0 |
| FpBits.ValueOfBits | llm/fp32.py:43-51 | which number bits stand for: sign, eight bits of exponent, 23 of fraction, subnormals as zeros |
| FpBits.AddBits | llm/fp32.py:78-118 | the bits of the sum of any two finite operands, from the exact rational sum rounded to nearest even at 24 bits: a zero of its sign below 2^-126, an infinity of its sign from 2^128 on, else that number; an exact zero is +0 unless both operands are negative |
| FpBits.MulBits | llm/fp32.py:129-144 | the same for the product, with the product of the signs |
| FpBits.SubBits | llm/fp32.py:121-126 | the same for the difference |
| FpBits.LdexpBits | llm/fp32.py:147-151 | the same for scaling by a power of two, which rounds nothing |
| FpBits.SpecialBits | llm/fp32.py:111-117 | with a NaN or infinite operand: 0x7FC00000 for a NaN, for opposite infinities and for infinity times zero; otherwise an infinity with its sign |
| FpExact.AddIsExactlyRounded | llm/fp32.py:78-118 | the step before: the aligned, jammed and rounded significands are the rounded exact sum |
| FpExact.AddCommutes | llm/fp32.py:78-118 | addition is commutative on all bit patterns |
| FpConvert.AddIsNearest | llm/fp32.py:78-118 | a sum in the normal range is a nearest one, ties to even |
| FpConvert.MulIsNearest | llm/fp32.py:129-144 | a product in the normal range is a nearest one, ties to even |
| FpConvert.FromIntIsNearest | llm/fp32.py:154-166 | an int32 becomes the nearest binary32 number, ties to even |
| FpConvert.ToIntIsNearest | llm/fp32.py:169-189 | conversion in mode "rne" is the nearest integer, even on a tie, saturated to [lo, hi] |
| FpConvert.NearestIntIsUnique | llm/fp32.py:169-189 | and there is only one such integer |
| FpConvert.ToIntIsFloor | llm/fp32.py:181-188 | in the other mode it is the floor, saturated |
| FpConvert.RoundTrip | llm/fp32.py:154-189 | integers up to 2^24 in magnitude survive from_int then to_int in both modes |
| LoopMachine.FlatRuns | llm/sa_funcsim.py:496-513 | LOOP_END executes its body as often as the count says, PARAMs advanced after each iteration, nested two levels, inside any list |
| LoopMachine.ListRuns | llm/sa_funcsim.py:434-526 | a whole structured list runs to its end with exactly those effective commands |
| LoopMachine.EndIsLast | llm/sa_funcsim.py:434-526 | the interpreter does not step past the end of a list |
| LinearList.Linear | llm/compile_layer.py:139-182 | for any number of rows, the generator appends the unrolled or the looped list whose meaning is proved |
| LinearLoop.LoopedIsUnrolled | llm/compile_layer.py:169-182 | the looped form executes the same effective commands (addresses, banks, shapes) as the unrolled form |
| LinearLoop.LoopedListRuns | llm/compile_layer.py:169-182 | the interpreter runs the looped list as those commands |
| LinearLoop.LoopedIffCountFits | llm/compile_layer.py:172-179 | it does so if and only if the number of loop iterations is below 2^16 |
| LinearLoop.TooFew | driver/pynq_matmul.py:272-277 | beyond that fewer commands run |
| LinearLoop.CountZeroStops | llm/sa_funcsim.py:497-499 | a count field of 0 stops the list at LOOP_END |
| LinearMeaning.WeightsLoaded | llm/sa_funcsim.py:120-136 | the LD of a chunk's weights fills its bank and changes nothing else |
| LinearMeaning.PackedDot | llm/export_w8a8.py:54-59 | over bytes that stand for int8 matrices, X in the A strip and W packed in tiles, the product of a tile's column with a row of the strip is the dot product of that row of X with that row of W |
| LinearMeaning.OutputAddress | llm/compile_layer.py:163-164 | row b of a DDR output is 4 n_out b bytes after the first, output o of it 4 o bytes further |
| LinearMeaning.Int32IsExact | llm/sa_funcsim.py:209 | the wrapped C word is the dot product exactly when that is an int32 |
| LinearChunk.ExIsRight | llm/sa_funcsim.py:187-210 | the EX of a chunk whose weights are in its bank leaves each tile's dot products with every row, and writes only its C rows |
| LinearChunk.VesAreRight | llm/compile_layer.py:156-162 | the two VEs scale row b of every tile by the tile's s_w and the row's s_x, for one row and for several, and write nothing else |
| LinearChunk.StIsRight | llm/compile_layer.py:163-165 | the ST puts every row at the chunk's place in that row of the output and changes no cell outside these rows |
| LinearRun.ChunkStep | llm/compile_layer.py:148-167 | a chunk is computed from its own weights while the next one's arrive in the other bank; no chunk is overwritten before its EX reads it |
| LinearRun.UnrolledComputes | llm/compile_layer.py:93-182 | for every number of rows, order of the chunks, start bank and preloaded flag, the list leaves the dequantized product of every row and output |
| LinearRun.LoopedComputes | llm/compile_layer.py:93-182 | so does the looped list run by the interpreter |
| LinearScale.VeMulIsMul | llm/sa_funcsim.py:352-353 | the engine's a * b * 1.0 + 0.0 is the product rounded once, a -0 made +0 |
| LinearScale.UnrolledIsExact | llm/compile_layer.py:93-182 | for int8 matrices X and W whose bytes are in the strip and in DDR, every output is the integer dot product of a row of X with a row of W, converted, times s_w, times the row's s_x, each step rounded once: 16-bit local addresses keep every dot product within int32 |
| LinearScale.LoopedIsExact | llm/compile_layer.py:93-182 | the same for the looped list |
| LinearScale.AcceptedSizesFit | llm/compile_layer.py:122-126 | chunk sizes linear accepts fit a SPAD_B bank and the scratch of an ACC bank, for any number of rows |
| LinearLegal.LinearIsLegalIff | llm/sa_funcsim.py:177-196 | no command of the list is refused for shape, alignment or range, exactly when the A strip is inside SPAD_A and ACC has as many words from s_x on as a chunk has results |
| LinearLegal.LoopedIsLegalIff | llm/sa_funcsim.py:177-196 | the same for the looped list as it is run |
| LinearLegal.RescaledLegal | llm/sa_funcsim.py:283-293 | the multiplication by s_x alone needs those words, since the check of a divided index counts every group |
| LinearLegal.SizesStay | llm/sa_funcsim.py:177-196 | no command changes a memory's size, so legality at the start is legality throughout |
| SimRun.Sim.Load | llm/sa_funcsim.py:120-136 | a contiguous LD into SPAD_B or ACC, on the memories in place |
| SimRun.Sim.Multiply | llm/sa_funcsim.py:187-210 | an EX that does not accumulate, on the memories in place, tile by tile and row by row |
| SimRun.Sim.Vector | llm/sa_funcsim.py:306-383 | the VE's fp32 multiplication in place, second operand by group, modulo or divided, sources read before the destination is written |
| SimRun.Sim.Store | llm/sa_funcsim.py:164-175 | an ST from ACC, row by row with its pitch, on DDR in place |
| SimRun.Sim.RunList | llm/sa_funcsim.py:420-526 | for lists of commands, SETREGs of PARAMs and LOOP_ENDs: memories and PARAMs afterwards are those of the effective commands of the loop machine; which of end, illegal descriptor and descriptor limit stopped it |
| TokenBanks.ChunkIsLargest | llm/compile_layer.py:52-59 | the chunk size is the largest divisor of the tiles whose weights fit a bank and whose C rows, s_w and y fit the scratch |
| TokenBanks.FusedIsLargest | llm/compile_model.py:314-317 | the fused W13 chunk is the largest such divisor of one half's tiles |
| TokenBanks.FusedIsSmaller | llm/compile_model.py:314-317 | the fused W13 chunk is a chunk size of the layer, and not larger than what is prefetched for it |
| TokenBanks.Compiler.Chunks | llm/compile_layer.py:139-182 | every EX of a layer finds its chunk in its bank, and the next layer's first chunk is left in the bank the last EX does not read |
| TokenBanks.Compiler.Linear | llm/compile_model.py:158-171 | from a state whose prefetched bank is intact to the next such state, for any smaller chunk size and any order starting with chunk 0 |
| TokenBanks.Compiler.AttentionBanks | llm/compile_model.py:179-185 | the K^T and V strips fit without overlap, and leave the prefetched bank alone |
| TokenBanks.Compiler.Attention | llm/compile_model.py:233-293 | every head's EXs read that head's own K^T and V strips, and the prefetched weights survive |
| TokenBanks.Compiler.FfnUp | llm/compile_model.py:307-328 | W13, fused with SiLU or not, reads its weights |
| TokenBanks.Compiler.Build | llm/compile_model.py:351-374 | for every accepted configuration and any contents of SPAD_B at the start, every EX of the token list reads exactly the words meant for it, in the order of the layers |
| TokenBanks.EveryWeightOnce | llm/compile_model.py:307-328 | every word of every layer's weights is read by exactly one EX |
| MatrixSteps.StripLoaded | llm/sa_funcsim.py:126-132 | an interleaved LD makes the strip EX reads: element q of row r |
| MatrixSteps.TilesDone | llm/sa_funcsim.py:200-209 | an EX of several tiles leaves each C word its sum of products modulo 2^32, added to what was there if asked |
| MatrixSteps.RowsStored | llm/sa_funcsim.py:171-174 | the bytes a strided ST leaves |
| GemmList.Build | driver/pynq_matmul.py:324-355 | the generator emits the list whose meaning is proved |
| GemmMeaning.BothHalves | driver/pynq_matmul.py:324-330 | the two halves of B, with the first strip between them, are the whole B |
| GemmRun.StripComputed | driver/pynq_matmul.py:336-345 | a strip's C words are its products plus bias, with B split or not |
| GemmRun.StripStored | driver/pynq_matmul.py:352-354 | its rows arrive in C; earlier rows and everything outside C stay |
| GemmRun.ListMultiplies | driver/pynq_matmul.py:302-355 | for every size that fits and every choice of prefetch and B split, C is A B plus bias modulo 2^32 and no other byte of DDR changes |
| GemmProduct.ProductInMemory | driver/pynq_matmul.py:302-355 | the same in integers: for int8 matrices A and B stored row after row and an int32 bias, the four bytes of every C(i, j) are those of Z(i, j) plus the sum of A(i, q) B(q, j), low byte first |
| GemmStream.ListIsLegal | llm/sa_funcsim.py:177-196 | no command of the list is refused for shape or range |
| GemmStream.Port.GemmMain | firmware/gemm/gemm_fw.c:90-151 | the firmware's sticky configuration registers issue exactly the commands of the list, whatever they held before |
| GemmStream.FlagsAgree | firmware/gemm/gemm_fw.c:82-87 | its flags choose the same B split |
| Batched.ChunkIsLargest | llm/compile_batch.py:162-165 | the chunk size is the largest common divisor of the segments' tiles that fits a bank |
| Batched.Linear | llm/compile_batch.py:146-189 | the generator emits the list whose meaning is proved, chunk places taken segment by segment |
| BatchedSteps.Transferred | llm/compile_batch.py:144-148 | stored row by row and loaded interleaved, the quantized matrix is the A strip with one sequence a row |
| BatchedRun.ChunkStep | llm/compile_batch.py:176-182 | a chunk's products land in their segment's matrix, nothing else changes, and the next chunk is in the other bank |
| BatchedRun.SegmentDone | llm/compile_batch.py:183-188 | a segment is scaled by its columns' weight scales and its rows' own s_x, the other matrices stay |
| BatchedRun.EveryRowComputed | llm/compile_batch.py:136-189 | for every split into segments, row b of every output matrix is computed from sequence b's inputs and scale |
| BatchedRun.BatchedRunsAsSingle | llm/compile_batch.py:136-189 | it is what the single-sequence list leaves for sequence b, and what a list of several rows leaves in the row with those activations |
| RvKey.NumberIsValue | firmware/include/rvsched.h:70 | for all bit patterns but NaNs, the order of sign and magnitude is the order of the values they stand for, subnormals and infinities included |
| RvKey.KeyIsTotalOrder | firmware/include/rvsched.h:70 | the key embeds totalOrder, given by the clauses of section 5.10 of IEEE 754-2019 on values, signs and NaN payloads |
| RvKey.PickIsLargest | firmware/include/rvsched.h:130-161 | with right block maxima and no NaN the token picked indexes a logit of largest value |
| RvKey.PickIsFirstIff | firmware/include/rvsched.h:130-161 | and the first one exactly when no earlier block's maximum is -0 while the largest is +0 |
| RvTable.CheckShape | compiler/runtime/sa/sa_rvsched.c:133-147 | the recordings are accepted exactly when all buckets have the same items but for word values |
| RvTable.Diff | compiler/runtime/sa/sa_rvsched.c:148-163 | the words listed are exactly those at which some bucket differs from the first, in the table's order |
| RvTable.Layout | compiler/runtime/sa/sa_rvsched.c:231-237 | the copies follow the 24 header words one after the other, each at the next multiple of 64 bytes |
| RvTable.WriteTable | compiler/runtime/sa/sa_rvsched.c:219-342 | both passes: a table for the first bucket exactly when the recordings of each pass agree in shape, the second has the first's items, and its words that differ fit the room the first left |
| RvTable.Table.Patch | firmware/include/rvsched.h:100-103 | patched from whatever bucket it was at, every copy is the new bucket's recording word for word |
| RvTable.SliceIs | firmware/include/rvsched.h:117-119 | so each item submitted is the recorded one |
| RvCore.OneWordMore | firmware/include/rvsched.h:98-110 | one more word makes the next position's mask |
| RvCore.Core.Prepare | firmware/include/rvsched.h:98-115 | by patching or by one word, memory then holds the token and the position as 64-bit integers at their words, 1.0 exactly at positions 0 .. pos of the bucket's mask, and its old value in every other word |
| RvCore.Core.Argmax | firmware/include/rvsched.h:130-161 | the two loops compute the token of the two-level scan |
| RvCore.Core.RunTable | firmware/include/rvsched.h:116-129 | the items of the table run as the bucket's recorded items, up to the first that fails |
| RvCore.Core.Run | firmware/include/rvsched.h:90-171 | the loop gives the tokens, status, failed item and memory of the host's loop over the recorded steps, and so has that loop's steps |
| RvTrace.LoopTrace | firmware/include/rvsched.h:90-171 | every run step by step: step s is at pos0 + s, in bucket (pos0 + s) / pad, with the token picked in step s - 1, from the memory that step left with the inputs written; its recorded items run in order up to one that fails; how and when the loop ends |
| RvTrace.ItemsTrace | firmware/include/rvsched.h:116-129 | items run each from the memory the one before left, all of them or up to the first that fails |
| RvTrace.PickedIsLargest | firmware/include/rvsched.h:130-161 | the token is where the largest logit is in memory |
| RvHost.LoopEnds | firmware/include/rvsched.h:90-171 | the loop makes at most the steps asked for and keeps the memory's size; no token but the last is the stop token; with status 0 all steps were made or the last token is the stop, otherwise there are fewer tokens and none is |
| RvHost.LoopResumes | firmware/include/rvsched.h:90-171 | cut after any number of steps that neither failed nor stopped, a second loop from the last token and the memory goes on as the whole one would |
| Attention.LaterRowsNeverMatter | compiler/frontend/qhf.py:304-319 | attention at a position depends on the cache rows up to it alone, whatever the padded length and later rows |
| Attention.AttendsToAllSoFar | compiler/frontend/qhf.py:304-319 | over any padded slice it is attention without a mask to rows 0 .. pos: the maximum of all their scores, the sum of all exponentials, the weighted sum of all value rows |
| Prefill.NextHidden | compiler/frontend/qhf.py:328-351 | a position's state after a layer comes from attention without a mask to the key and value rows of all positions up to and with its own |
| Prefill.StartsCover | compiler/frontend/export.py:69-72 | the chunks start at 0, leave no gap, end at the prompt's end, and each starts inside or right after the one before |
| Prefill.RoundUpFits | compiler/frontend/export.py:61-66 | a chunk's padded length stays inside the cache |
| Prefill.Model.Decode | compiler/frontend/qhf.py:321-353 | a decode step writes its position's row in every layer and leaves later rows alone |
| Prefill.Model.LayerInterleaved | compiler/frontend/qhf.py:375-405 | a layer of a chunk with each row's attention right after its cache row |
| Prefill.Model.LayerTogether | compiler/frontend/hf_generic.py:325-363 | a layer of a chunk with all rows written before any attention |
| Prefill.Model.Chunk | compiler/frontend/qhf.py:356-409 | a chunk leaves the prompt's rows in all layers and its last row's hidden state, rewriting overlap rows with the same values |
| Prefill.Model.DecodePrompt | compiler/frontend/qhf.py:321-353 | decode steps leave the prompt's rows and the last token's logits |
| Prefill.Model.PrefillPrompt | compiler/frontend/qhf.py:356-409 | prefill in chunks leaves the same rows and the same logits |
| Prefill.SameCaches | compiler/frontend/qhf.py:356-364 | what both promise leaves one possibility for the caches: they end equal |
| Bpe.BestIsFound | compiler/frontend/hf_tokenizer.py:62-64 | there is one best pair: lowest rank, leftmost |
| Bpe.NoPairLeft | compiler/frontend/hf_tokenizer.py:62-96 | no adjacent pair of the result has a merge rule |
| Bpe.TextConserved | compiler/frontend/hf_tokenizer.py:62-96 | merging conserves the concatenated text |
| Bpe.EncodedText | compiler/frontend/hf_tokenizer.py:62-96 | the symbols of an encoded word spell the word |
| Bpe.SymbolsFromRules | compiler/frontend/hf_tokenizer.py:62-96 | every symbol is a character of the word or the result of a merge rule |
| BpeHeap.MinimumIsBest | compiler/frontend/hf_tokenizer.py:77-81 | a smallest heap entry whose pair still stands is the best pair of all |
| BpeHeap.StaleIsUseless | compiler/frontend/hf_tokenizer.py:79-81 | dropping a stale entry loses no pair |
| BpeHeap.PushedCovers | compiler/frontend/hf_tokenizer.py:82-95 | after a merge and its two pushes every pair that can merge has its entry |
| BpeHeap.Unlink | compiler/frontend/hf_tokenizer.py:82-86 | the merged pair becomes one symbol and its right half leaves the linked list |
| BpeHeap.MergeAll | compiler/frontend/hf_tokenizer.py:77-96 | the loop ends, with the symbols of repeated best merges |
| BpeHeap.Encode | compiler/frontend/hf_tokenizer.py:62-96 | the heap form returns what repeatedly merging the leftmost pair of lowest rank returns |
| Ring.SlotsAgree | compiler/runtime/sa/sa_transport_board.c:124 | a 32-bit counter picks the slot of the unbounded one when the ring's size is a power of two |
| Ring.SignedTells | compiler/runtime/sa/sa_transport_board.c:134 | the signed difference tells whether the firmware has caught up, also across the wrap |
| RingSafe.EveryRunIsSafe | firmware/rt/rt_fw.c:102-158 | over every interleaving in which submissions start below the exact bound: what ran is what was posted, once, in order and with its own parameters, and every record collected is its submission's own |
| RingSafe.EveryDeviceRunIsSafe | driver/pynq_matmul.py:927-981 | the Device's own check makes the room that needs, over every run of fewer than 2^32 submissions; tail never passes collected + size |
| RingSafe.ServesNext | firmware/rt/rt_fw.c:102-158 | an idle firmware with work outstanding serves the next submission in six steps of its own |
| RingSafe.ReadGives | compiler/runtime/sa/sa_transport_board.c:134-150 | the board's wait ends with its own submission's record |
| RingLive.WaitEndsIff | compiler/runtime/sa/sa_transport_board.c:134-150 | it ends exactly when that submission has been served |
| RingLive.SubmitsIff | driver/pynq_matmul.py:927-963 | the Device accepts a submission exactly when fewer than size are not yet collected, the board always; a refused one changes nothing |
| RingLive.CollectsAll | driver/pynq_matmul.py:965-981 | the Device's collection ends with every served submission collected, each with its own record |
| RingSafe.LostSubmission | compiler/runtime/sa/sa_transport_board.c:122-132 | from the start: a wait given up, a second submission posted into a full ring, and the firmware runs the second one's words in the first one's place |
| RingSafe.BoundIsExact | compiler/runtime/sa/sa_transport_board.c:122-132 | from any state that runs so reach, posting keeps every continuation without further posts right if and only if the tail is below the bound: size submissions unserved, or one more once the entry being served has been read |

## Assumptions

The scheduler's theorems take what the repository asks of its templates as premises:
declared ranges cover a dispatch's DDR accesses, its own list needs no further FENCE, a prefix loads only
SPAD_B from its declared ranges and leaves the registers alone, a dispatch with a prefix is marked as
touching SPAD_B (the budget and the context's methods do not need this one), heads and bodies depend only on registers the dispatch sets, BASE15 not among them
(`BatchOrder.AllDeclared`, `BatchRegs.RegistersKept`). The linear layer's premises are those of its
caller's memory plan (`LinearMeaning.Fits`), and for legality 8-byte aligned addresses. The decode loop's are that no recorded item writes a mask
and that inputs lie outside masks (`RvHost.KeepsMasks`, `RvHost.Placed`), and for what a step
starts from that a bucket's four input words differ (`RvTrace.AllApart`). Prefill's are that a
masked score does not change a maximum and a masked exponential does not change a sum
(`Attention.MaskNeutral`). The ring's are a power-of-two size up to 2^31 and submissions below the bound: on the Device its own
check and fewer than 2^32 submissions in a run, on the board a caller that keeps to it.

## Left out

- Mutexes, allocator status strings, statistics counters, dispatch names and profiling of the context: no effect on lists or blocks.
- Byte encodings of descriptors (tags, flags, packed fields): descriptors are records; only the 16-bit count field of LOOP_END matters to a theorem and is modelled.
- Machine: commands complete atomically, and a load of a PARAM register from DDR is a load into a register location.
- BatchMeaning.MergedListMeansOneByOne: needs Settled and the assumptions above, because without Settled the code's list is wrong.
- BatchContext.Context.Add: allocation failure of the entry table is not modelled.
- Arena.Heap: the 64-bit header words are kept in the cell of their first byte; requests that wrap uint64 are excluded from the methods, because NeedIsEnough says exactly which they are.
- Fp32: scalars instead of NumPy arrays; `_nlz28` as the exact top-bit position; fmax, fmin and ftz.
- EXP, RECIP and RSQRT: numerical quality without an exact specification; quant_act, RMSNorm, RoPE, softmax and SiLU therefore appear only through the words and banks they touch.
- LinearRun.UnrolledComputes: starts from the quantized int8 strip; the callbacks after_chunk and after_last_ex append other lists' commands.
- BatchBuild.TurnOverShare: an example about one turn; the batch's whole list fits.
- SimOps and MatrixMachine: two machines for two kinds of claims. SimOps keeps bounded memories that the simulator class updates in place; MatrixMachine has single bytes and no bounds. BatchedRun.BatchedRunsAsSingle connects their results.
- SimOps: a 32-bit value in DDR is kept in the cell of its first byte; interleaved loads, GEMV, TRANSPOSE, integer VE and BASE relocation are not part of the linear layer's commands; a command out of range changes nothing where the simulator raises (LinearLegal shows when none is).
- SimRun.Sim.Load: interleaved and pitched loads, and loads into SPAD_A, are MatrixMachine's.
- SimRun.Sim.Multiply: the accumulate flag is MatrixMachine's; range errors are LinearLegal's.
- SimRun.Sim.Vector: only the operation linear layers use.
- SimRun.Sim.RunList: CALL, RET, JUMP, FENCE and LDPARAM inside a list, and dynamic fields other than a DDR address, are not part of a linear layer's list.
- MatrixMachine: memories are functions of word and lane, without bounds; GemmStream.ListIsLegal shows the lists stay inside them.
- GemmList: the int8 epilogue through the VE and the vector lists; addresses are not wrapped at 2^32.
- Batched.Linear: starts from the quantized int8 matrix; the FENCE between its ST and LD has no effect in list order. The classifier's branch is LinearList.Linear with D rows; its composition with the quantization before it is not stated.
- TokenBanks: only what touches SPAD_B; the loop over heads is unrolled; activations in ACC and SPAD_A are the memory plan's.
- The choice of ACC buffers that lets SiLU overlap the next chunk, and after_chunk callbacks beside it: scheduling, not meaning.
- Ring: a state machine on values rather than shared memory updated in place; parameter blocks as single values; perf counters and interrupts. The board's submissions carry no parameters and do not end the firmware, as in its transport.
- Timeouts, except that the board's wait can give up at any time.
- RvCore: the R5 kernel's argmax, cycle and device counters; table addresses are word indices.
- RvTable.WriteTable: one logits shape for all buckets is part of the schedule; a bucket never recorded, the table's header words and the check of later recordings are left out.
- Prefill.Model: the caches are sequences of rows rather than tensors updated in place, and the packed V cache layout is not modelled.
- Torch export, checkpoints, tokenizer regexes, transports, drivers, RTL and compiler passes: foreign libraries or plumbing.
