# Verified models of the m65832 core's caches, toolchain and trace reader

This project models, in Dafny, the parts of the repository whose correctness is hardest to see by
reading, and proves what they are for. `dafny verify dfyconfig.toml` checks everything.

**A. The cache system.** The data cache (`DCache.sv`) is a transition system with one step a clock
cycle: tag, data, dirty and replacement arrays, the two array ports with their ADDR, TAG and DATA
registers, the miss status registers (MSHRs) with their nineteen phases, the flush controller, and
main memory with its outstanding transactions. Beside it runs a flat memory in which a store takes
effect at its hit write or at its merge step. Ways (a power of two), sets, line bytes and MSHRs are
parameters: the constants have no value, so every proof is for all of them. The instruction cache
(`ICache.sv`) and the flush manager (`CacheFlushManager.sv`) are modelled the same way, and the three
parties are run together for the flush handshake.

**B. The toolchain.** What `m65f32asm.c` emits is run on an interpreter built from `Decoder.sv` and
`IntALU.sv`; forward references, the hex file, the disassembler's field decoding and the branch
resolver close the chain from source operand to branch target.

**C. The trace reader.** `RSD_Parser.py` rebuilds unbounded ids from ten-bit serials, buffers events
by cycle and hands them in order to `KanataGenerator.py`.

Registers and buffers that the source updates in place are classes and arrays here (`DCacheUnits`,
`DCacheMissEntry`, `DCacheMissHandler`, `DCacheArray`, `DCacheReadPorts`, `DCacheMultiplexer`, `ICacheUnits`,
`FlushHandshake`, `AsmUnits`, `HexFile`, `TraceUnits`): each method is proved to produce exactly the
next state of the transition system, or the result of the specification function, that the theorems
are about.

## How the files fit together

| files | content |
|---|---|
| `Common`, `CacheTypes`, `AddressMap`, `PortArbiter`, `TreeLru`, `Nru` | shared notions, address slices, arbiters, replacement |
| `DCacheModel`, `DCacheSystem` | one cycle of the hardware; the hardware with main and flat memory |
| `DCacheInvariant`, `DCacheCycle`, `DCacheHardware`, `DCacheCoherence`, `DCacheMiss`, `DCacheFlush`, `DCachePreserve` | the invariant and its preservation |
| `DCacheTheorems`, `DCacheFlushTheorems`, `DCacheProgress`, `DCachePorts`, `DCacheBypass`, `DCacheRelease`, `DCacheReplacement` | what follows for every run |
| `DCacheSweep` | the sweep of a flush, for any number of ways and any inputs |
| `DCacheStaleBypass`, `DCacheLostStore` | runs from reset that show where the cache does less |
| `DCacheUnits`, `DCacheMissEntry`, `DCacheMissHandler`, `DCacheArray`, `DCacheReadPorts`, `DCacheMultiplexer` | the clocked modules and loops of `DCache.sv` |
| `ICacheModel`, `ICacheTheorems`, `ICacheFill`, `ICacheUnits`, `FlushHandshake` | instruction cache and flush coordination |
| `IntAlu`, `Isa`, `Core`, `AsmEncoding`, `AsmLowering`, `AsmMeaning` | ALU, instruction set, encoders, lowering and its meaning |
| `Backpatch`, `AsmTargets`, `AsmUnits`, `BranchResolver`, `BranchExecution`, `HexFile`, `HexCodec` | fixups, targets, code buffer, branch resolver and execution, hex file |
| `ProgramImage` | the chain from a reference to the recovered target, and from the image to the file and back |
| `TraceIds`, `TraceModel`, `TraceTheorems`, `TraceUnits` | trace reconstruction |
| `TraceReplay`, `TraceKeeping` | what the events say of the lines, and how long an op is kept |
| `TraceOutput`, `TraceDropped` | what the output shows, and a trace of which it shows less than was handed over |

## What the models assume

`DCacheSystem.EnvOk` states in one place what the data cache relies on in a cycle:

- outstanding read and write serials are unique; memory answers a read with the line it sampled in
  some cycle since it accepted the read, and a write after the write reached memory;
- the store committer holds the bytes of a missed store until they are merged;
- a flush is accepted only with no load or store in flight (the assertion at
  Processor/Src/Cache/DCache.sv:219-223) and, for what a flush does to the contents of memory, only in
  a one-way cache.

The sweep itself - its order, its end, the way it covers - is proved in `DCacheSweep` without `EnvOk`,
for any number of ways and any inputs, from any state that an accepted flush leads to.

RAMs are read before they are written and answer one cycle later. The instruction cache's memory
changes only while the cache is being flushed, and `icReadAddrIn` is the previous cycle's
`icNextReadAddrIn`. No assumption keeps cachable and uncachable addresses apart: the invariant does
not need it.

## Where the code does less than one might expect

Each of these is a theorem below.

- **Stale bypass.** A miss given up before its victim was requested reaches the complete phase
  without a fetched line, and the tag-stage search still reports a read hit for it. A bypassing load
  receives the flat line if and only if the miss it reads did not give up, and otherwise what the
  register held before (`BypassExact`). `StaleBypass` is a run from reset, with every load issued while
  it is not flushed, in which a load sees a line that differs from the flat memory.
- **A flush covers one way.** The flush requests name the way left in MSHR 0: afterwards the cache is
  empty if and only if every other way was empty before (`FlushCoversOneWay`). `FlushLeavesLine` is a
  complete flush of a cache with several ways that leaves a line valid.
- **A store's allocation can be cancelled.** Stores use active-list position 0, so a pipeline flush that
  covers position 0 in the cycle of the allocation drops an entry that was reported as allocated
  (`StoreAllocationLost`; `LostStore` is such a run from reset).
- **An idle array port is not inert.** It never writes tags, data or dirty bits, but it carries the
  load's address and records a way in the replacement array when that address hits
  (`UngrantedPortRecords`).
- **The hit lanes are a prefix** if and only if a fetch group is at most one instruction wider than
  a line (`HitLanesPrefix`); a one-way NRU state is always all ones (`NeverAllOnes`).
- **Zero-extended immediates.** A negative short immediate of AND, ORA, EOR or the unsigned compare
  reaches the ALU changed, and some register value then gives a wrong result (`ImmediateWrong`).
- **T as scratch.** A store of T through a mode that computes its address in T stores the base of
  the address (`StoreOfScratch`), and for each such mode some state makes that a wrong word
  (`StoreOfScratchWrong`).
- **Branch range.** The assembler does not check it: a branch reaches its label if and only if the
  displacement is aligned and fits 21 signed words (`BranchReaches`).
- **Reserved condition codes.** The decoder makes the codes above 8 unconditional, the resolver takes them
  for conditional: it finds exactly the predictions that no flags make right, except for such a branch
  predicted not taken (`ExactUnlessOverlooked`, `ReservedBranchPasses`).
- **Shared places in the image.** Different addresses have one place exactly when one of them is in RAM
  and the other is that place (`ImageShared`).
- **Consecutive instruction fetches.** A hit marks its way in the access bits of the cycle before, so the
  mark of a hit is lost when another way of the set is hit in the next cycle (`LaterHitForgets`).
- **Trace brackets.** The events of an op nest exactly if no line of it ends a stall and moves it at once,
  retires and flushes it at once, or moves, flushes or stops stalling it after its end
  (`EventsTellLines`); `MoveAfterStallBreaks` is a trace of two lines that does not nest.
- **Trace ids** are recovered within a quarter of the id range, not within half of it as the comment
  at Processor/Tools/KanataConverter/RSD_Parser.py:72-73 says (`QuarterIsTight`).
- **Dropped trace events.** The generator keeps its own map of ops and drops what it is handed for an op
  it no longer knows. The reader sees all that was handed over if and only if every such event's op was
  open and its stage has a name (`ReaderSeesAllHanded`); `HandedButNotWritten` is a trace with an
  event that is handed over and not written.

## Model

| member | source | states |
|---|---|---|
| `PortArbiter.Arbitrate` | Processor/Src/Cache/DCache.sv:320-368 | The nested loops give each port the first request still waiting: grants, both selection maps and port grants are those of the closed-form rank definition, for any numbers of requesters and ports. |
| `PortArbiter.SelectionInverse` | Processor/Src/Cache/DCache.sv:341-366 | The port a granted requester is sent to is granted and selects that very requester. |
| `PortArbiter.GrantedSelection` | Processor/Src/Cache/DCache.sv:341-366 | The requester a granted port selects is granted and is sent to that very port. |
| `PortArbiter.LowestFirst` | Processor/Src/Cache/DCache.sv:342-355 | No request is passed over in favour of a higher-numbered one. |
| `PortArbiter.GrantsExactlyPorts` | Processor/Src/Cache/DCache.sv:342-355 | The number of grants is the smaller of requests and ports. |
| `PortArbiter.ArbitrateMemory` | Processor/Src/Cache/DCache.sv:237-262 | Exactly the lowest-numbered memory request is granted, and the port is valid exactly when there is one. |
| `TreeLru.RecentWaySurvives` | Processor/Src/Cache/DCache.sv:99-139 | With 2^k ways, fewer than k records after a way was recorded never make it the evicted way. |
| `TreeLru.RecentWayEvictable` | Processor/Src/Cache/DCache.sv:99-139 | The bound is tight: some k records make it the evicted way. |
| `TreeLru.EveryWayOnce` | Processor/Src/Cache/DCache.sv:99-139 | From any state, 2^k evict-then-record steps evict every way exactly once. |
| `TreeLru.EvictedIffAllTowards` | Processor/Src/Cache/DCache.sv:99-109 | A way is designated exactly when the bit at every level of its path leads towards it. |
| `TreeLru.CalcEvictedWay` | Processor/Src/Cache/DCache.sv:99-109 | The loop with its running position finds the way at the end of the path through the tree. |
| `TreeLru.CalcUpdatedState` | Processor/Src/Cache/DCache.sv:111-124 | Every bit of a level becomes the way's turn at that level. |
| `TreeLru.CalcWriteEnable` | Processor/Src/Cache/DCache.sv:126-139 | Exactly the bits on the way's path are enabled. |
| `TreeLru.Record` | Processor/Src/Cache/DCache.sv:758-772 | Writing the enabled bits of the state array in place yields the state the LRU theorems speak of. |
| `AddressMap.SlicesRoundTrip` | Processor/Src/Cache/DCache.sv:50-80 | Slicing and building an address are inverse up to the byte offset, for any widths. |
| `AddressMap.SameLine` | Processor/Src/Cache/DCache.sv:50-80 | Two addresses have one line address if and only if index and tag agree. |
| `DCacheUnits.MergeStoreDataToLine` | Processor/Src/Cache/DCache.sv:34-46 | The in-place byte loop yields stored bytes under the mask and fetched bytes elsewhere. |
| `DCacheUnits.LookUpMshrs` | Processor/Src/Cache/DCache.sv:498-524 | The search finds conflict, address hit, read hit, the last matching entry and its data. |
| `DCacheUnits.DetectHit` | Processor/Src/Cache/DCache.sv:526-537 | The way loop reports a hit exactly when a valid way matches without an MSHR conflict, and the last such way. |
| `DCacheUnits.AllocateMisses` | Processor/Src/Cache/DCache.sv:1165-1211 | The allocation loops give the load the first free entry and the store the next, unless they share an index. |
| `DCacheUnits.DCacheController.Clock` | Processor/Src/Cache/DCache.sv:156-217 | The controller's registers take the next phase of the model; acknowledge and completion are those of the phase. |
| `DCacheMissEntry.NextEntry` | Processor/Src/Cache/DCache.sv:1363-1885 | One entry: defaults first, then the phase's assignments override them, gives the field-by-field next entry that every proof uses. |
| `DCacheMissHandlerUnit.DCacheMissHandler.Clock` | Processor/Src/Cache/DCache.sv:1323-1336 | The clock edge over the whole bank in place: every entry becomes its own next entry, read before any is written. |
| `DCacheArrayUnit.DCacheArray.Clock` | Processor/Src/Cache/DCache.sv:695-838 | The RAM arrays, written by both ports byte by byte and bit by bit, hold what the model's next state says. |
| `DCacheReadPortUnit.DCacheReadPort.Clock` | Processor/Src/Cache/DCache.sv:675-754 | The read registers of a port's RAMs and the two way registers take what the arrays held before the edge. |
| `DCacheReadPortUnit.DCacheReadPort.Select` | Processor/Src/Cache/DCache.sv:760-819 | Line and dirty bit of the way that was hit, or of the way to evict for an eviction, and that way itself. |
| `DCacheMultiplexerUnit.DCacheArrayPortMultiplexer.Clock` | Processor/Src/Cache/DCache.sv:425-463 | The pipeline registers between ADDR, TAG and DATA stage after the edge. |
| `DCacheTheorems.InvStep` | Processor/Src/Cache/DCache.sv:144-1885 | Every cycle keeps the invariant that ties arrays, ports, MSHRs, memory and the flat memory together. |
| `DCacheTheorems.RunInv` | Processor/Src/Cache/DCache.sv:144-1885 | The invariant holds in every state of every run. |
| `DCacheTheorems.LoadHitReturnsFlat` | Processor/Src/Cache/DCache.sv:526-564 | In every run a load that hits receives, byte for byte, the flat line of its address. |
| `DCacheRelease.LoadOutcome` | Processor/Src/Cache/DCache.sv:526-564 | In every run a granted load hits exactly when its line is in its set and no MSHR is at work there, and is given an MSHR exactly when the line is absent, no MSHR is at work there and one is free. |
| `DCacheRelease.StoreOutcome` | Processor/Src/Cache/DCache.sv:526-564 | Likewise a granted store, with one MSHR free besides the load's, and unless a load misses at the same index. |
| `DCacheRelease.LoadAllocated` | Processor/Src/Cache/DCache.sv:1446-1482 | In every run the MSHR given to a load starts with the address, list pointer and kind the load was issued with, unless the load is flushed in that cycle. |
| `DCacheRelease.UncachableBypasses` | Processor/Src/Cache/DCache.sv:1470-1482 | In every run an uncachable access neither requests the arrays, nor evicts, nor fills. |
| `DCacheTheorems.BypassReturnsFlat` | Processor/Src/Cache/DCache.sv:504-524 | In every run a load that bypasses MSHR data receives the flat line if the entry has its line; an entry without one is a completed one whose own load was flushed. |
| `DCacheRelease.GivenUpIffFlushed` | Processor/Src/Cache/DCache.sv:1639-1658 | In every run a load's miss that asks for its victim gets the arrays unless two requesters of a lower number ask; it is then given up exactly when its load was flushed since the allocation. |
| `DCacheBypass.CompleteWithoutLine` | Processor/Src/Cache/DCache.sv:1639-1658 | In every run a completed miss has no line if and only if, since its allocation, it left VICTIM_REQUEST ungranted with its load flushed; it then has the line that its register held at the allocation. |
| `DCacheBypass.BypassExact` | Processor/Src/Cache/DCache.sv:504-524 | In every run a bypassing load receives the flat line, unless the miss it reads gave up in that way, and then what the register held before it. |
| `DCacheBypass.BypassIffReady` | Processor/Src/Cache/DCache.sv:504-524 | In every run a load is answered from the MSHRs exactly when one of them handles a miss for its address and has the line, with the stored bytes merged in if a store missed. |
| `DCacheTheorems.OneHolder` | Processor/Src/Cache/DCache.sv:1101-1124 | In every run no two valid MSHRs share an index and no set holds two valid ways with one tag. |
| `DCacheTheorems.AllocationSound` | Processor/Src/Cache/DCache.sv:1165-1211 | In every run a new miss takes a free entry, for a line no way holds, at an index no valid entry and no other new miss has. |
| `DCacheTheorems.SingleWriter` | Processor/Src/Cache/DCache.sv:566-570 | In every run the two ports never write the same data, nor fill the same tag, in one cycle. |
| `DCacheTheorems.VictimIsWay` | Processor/Src/Cache/DCache.sv:1668-1702 | In every run the saved line, the victim address and the way to be filled belong to one way, and the line is the flat one. |
| `DCacheReplacement.VictimIsDesignated` | Processor/Src/Cache/DCache.sv:1668-1702 | In every run the way that a miss evicts is the one its set's replacement state designated when the set was read, a cycle before the choice. |
| `DCacheReplacement.ReplacementFollowsAccesses` | Processor/Src/Cache/DCache.sv:572-603 | In every run a set's replacement state records the way that is filled or that holds the line of an access, of two requests for one index only that of port 0, and stays when there is none. |
| `DCacheReplacement.AccessPointsAway` | Processor/Src/Cache/DCache.sv:572-603 | In every run every level of the tree leads away from a recorded way. |
| `DCacheReplacement.LoadHitRecords` | Processor/Src/Cache/DCache.sv:598-600 | In every run a load that hits records the way that holds its line, unless it is in port 1 at the index of port 0. |
| `DCacheReplacement.StoreHitRecords` | Processor/Src/Cache/DCache.sv:598-600 | Likewise a store that hits. |
| `DCacheReplacement.RecentAccessSurvives` | Processor/Src/Cache/DCache.sv:99-139 | In every run a way is not chosen as victim if, since its last use, fewer accesses to its set were recorded than the tree has levels. |
| `DCacheTheorems.VictimFrozen` | Processor/Src/Cache/DCache.sv:1704-1860 | In every run that way's number, tag, data and dirty bit stay as they are from the choice of the victim to the fill. |
| `DCacheTheorems.NoDirtyDataLost` | Processor/Src/Cache/DCache.sv:1721-1768 | In every run, once the new line is requested, memory already holds whatever the way to be filled holds. |
| `DCacheTheorems.StoreMissOnce` | Processor/Src/Cache/DCache.sv:1798-1814 | In every run a missed store merges exactly once before its entry is freed, with the address and bytes it was allocated with. |
| `DCacheTheorems.StoreInTagStage` | Processor/Src/Cache/DCache.sv:425-440 | A store in its TAG stage carries address, data and mask it was issued with. |
| `DCacheTheorems.StoreAllocated` | Processor/Src/Cache/DCache.sv:1446-1482 | An allocated store has an entry with its address and bytes, unless the cycle's flush covers active-list position 0. |
| `DCacheTheorems.StoreAllocationLost` | Processor/Src/Cache/DCache.sv:1381-1388 | If it does, the entry that was reported is not created. |
| `DCacheLostStore.LostStore` | Processor/Src/Cache/DCache.sv:1381-1388 | A run from reset whose store is given an entry that is not in use a cycle later. |
| `DCacheFlushTheorems.FlushEndsClean` | Processor/Src/Cache/DCache.sv:1605-1628 | In every run a flush ends with every tag invalid and main memory equal to the flat memory. |
| `DCacheFlushTheorems.FlushWritesBack` | Processor/Src/Cache/DCache.sv:1483-1628 | In every run a complete flush leaves in main memory the logical memory of the cycle that accepted it. |
| `DCacheSweep.AcceptedFlushStarts` | Processor/Src/Cache/DCache.sv:156-223 | A flush accepted with no load or store in flight leads to a state in which only the sweep is active. |
| `DCacheSweep.SweepOrder` | Processor/Src/Cache/DCache.sv:1516-1628 | For any number of ways, any inputs and any contents: the indices visited so far are 0, 1, 2, ... up to the sweep's position. |
| `DCacheSweep.SweepComplete` | Processor/Src/Cache/DCache.sv:1605-1628 | Likewise a flush that ends has visited every index exactly once, in order. |
| `DCacheSweep.SweepGranted` | Processor/Src/Cache/DCache.sv:327-355 | During a flush the sweep's array request is granted at once. |
| `DCacheSweep.SweepTerminates` | Processor/Src/Cache/DCache.sv:1516-1628 | Likewise a sweep lasts at most six cycles an index and six more, plus the cycles spent waiting for memory. |
| `DCacheSweep.SweepEnds` | Processor/Src/Cache/DCache.sv:1605-1628 | So in any run of the clock longer than that the flush has completed. |
| `DCacheSweep.FlushCoversOneWay` | Processor/Src/Cache/DCache.sv:1516-1551 | Likewise after a flush the cache is empty if and only if every way but the one MSHR 0 names was empty before. |
| `DCacheSweep.FlushLeavesLine` | Processor/Src/Cache/DCache.sv:1516-1551 | With several ways there is a complete flush, under a memory that answers at once, after which a line is still valid. |
| `DCacheProgress.MissRankStep` | Processor/Src/Cache/DCache.sv:1639-1881 | An entry stays in its phase exactly when it waits for a port, an ack, a line, a response or its release; otherwise its rank drops or it is freed. |
| `DCacheProgress.MissBounded` | Processor/Src/Cache/DCache.sv:1639-1881 | In every run a miss takes at most ten cycles besides those it waits. |
| `DCachePorts.WaitsMean` | Processor/Src/Cache/DCache.sv:237-368 | In every run those waits for the arrays are the cycles in which two requesters of a lower number ask, and those for memory the ones without an acknowledge or behind a lower MSHR. |
| `DCacheProgress.LoadEntryKept` | Processor/Src/Cache/DCache.sv:1373-1404 | In every run a load's entry is freed only after its data was taken or its load was flushed. |
| `DCacheRelease.FreedIffLetGo` | Processor/Src/Cache/DCache.sv:1373-1404 | In every run a load's entry is freed exactly after a cycle in which its miss is complete and, since its allocation, its data was taken or its load was flushed. |
| `DCacheRelease.StoreFreed` | Processor/Src/Cache/DCache.sv:1866-1881 | In every run a store's entry is freed as soon as its miss is complete. |
| `DCachePorts.NoLsuGrantInFlush` | Processor/Src/Cache/DCache.sv:327-336 | No load or store is granted while a flush is processed. |
| `DCachePorts.LsuServed` | Processor/Src/Cache/DCache.sv:328-368 | In every run an issued load or store is granted the arrays exactly when no flush is being processed. |
| `DCachePorts.UngrantedPortWritesNothing` | Processor/Src/Cache/DCache.sv:484-570 | In every run a port that was not granted writes no tag, data or dirty bit. |
| `DCachePorts.UngrantedPortRecords` | Processor/Src/Cache/DCache.sv:572-603 | In every run it carries the load's address and writes the replacement array exactly when that address hits at an index the other port does not have. |
| `DCacheStaleBypass.StaleBypass` | Processor/Src/Cache/DCache.sv:1651-1653 | A run from reset, in which every load is issued while it is not flushed (Processor/Src/Pipeline/MemoryBackEnd/MemoryExecutionStage.sv:129-131), and a load bypasses a line that differs from the flat memory. |
| `Nru.IncrementIsPlusOne` | Processor/Src/Cache/ICache.sv:220-224 | The bit-vector increment is addition of one, wrapping at the width. |
| `Nru.EvictsLowestZero` | Processor/Src/Cache/ICache.sv:220-224 | The evicted way is the lowest clear bit, for any width; with none clear no way is designated. |
| `Nru.EvictsExactlyOne` | Processor/Src/Cache/ICache.sv:220-224 | With some bit clear the vector is one-hot at a way that was not used. |
| `Nru.NeverAllOnes` | Processor/Src/Cache/ICache.sv:208-218 | An update sets the way's bit, and leaves all ones if and only if there is one way. |
| `ICacheTheorems.RunInv` | Processor/Src/Cache/ICache.sv:376-479 | In every run: valid entries are memory lines outside a flush, tags of a set are distinct, the missed line is absent until filled, and the read registers show the set that is read. |
| `ICacheTheorems.HitOneHot` | Processor/Src/Cache/ICache.sv:518 | In every run the hit vector is one-hot or zero, and the hit way is its set bit. |
| `ICacheTheorems.HitLanesPrefix` | Processor/Src/Cache/ICache.sv:142-165 | The hit lanes of every fetch are those up to the line boundary if and only if a fetch group is at most one instruction wider than a line. |
| `ICacheTheorems.FetchDeliversMemory` | Processor/Src/Cache/ICache.sv:340-365 | In every run a lane reported as a hit lies on the head's line and delivers the memory word at its address. |
| `ICacheFill.FillMakesReadable` | Processor/Src/Cache/ICache.sv:423-447 | In every run, when the line a missed fetch waits for arrives, exactly one way of its set holds its tag, valid and with the memory line; no other entry changes; the way is the first one unmarked in the state read; two cycles later the cache reads again. |
| `ICacheFill.RefetchHits` | Processor/Src/Cache/ICache.sv:340-365 | In every run a later fetch from that line hits in every lane on it, with the words of memory, if there was no flush and no fill of the set since. |
| `ICacheFill.RetryHits` | Processor/Src/Cache/ICache.sv:442-447 | In every run the fetch that missed is served when it is tried again two cycles after its line arrived. |
| `ICacheFill.HitMarksWay` | Processor/Src/Cache/ICache.sv:417-421 | In every run a hit marks its way in the access bits that its set had one cycle earlier, and no other set changes. |
| `ICacheFill.LaterHitForgets` | Processor/Src/Cache/ICache.sv:314-329 | In every run a new mark is lost when another way of the set is hit in the next cycle. |
| `ICacheTheorems.NruLeavesOne` | Processor/Src/Cache/ICache.sv:327-338 | In every run with several ways no NRU state is all ones, and the way to evict is one-hot. |
| `ICacheTheorems.FlushInvalidatesAll` | Processor/Src/Cache/ICache.sv:448-466 | In every run FLUSH_COMPLETE implies that every entry is invalid. |
| `ICacheTheorems.FlushTakesOneCycleALine` | Processor/Src/Cache/ICache.sv:448-459 | In every run the flush is processed for exactly as many cycles as there are indices, then complete. |
| `ICacheTheorems.AckIffReading` | Processor/Src/Cache/ICache.sv:396-467 | In every run the registered acknowledge is set exactly in the READ_CACHE phase. |
| `ICacheUnits.HitLogic` | Processor/Src/Cache/ICache.sv:151-163 | The lane loop with its widened counter computes the lanes that the theorems speak of. |
| `ICacheUnits.FirstSet` | Processor/Src/Cache/ICache.sv:332-337 | The search with `break` finds the first set bit, 0 when there is none. |
| `ICacheUnits.ICache.DetectHit` | Processor/Src/Cache/ICache.sv:294-303 | The loop reports whether some way hits, and the first one. |
| `ICacheUnits.ICache.Read` | Processor/Src/Cache/ICache.sv:340-365 | The lanes delivered to the fetch stage are those of the model. |
| `ICacheUnits.ICache.Clock` | Processor/Src/Cache/ICache.sv:376-509 | One clock edge over registers and RAMs in place gives the model's next state. |
| `FlushHandshake.CacheFlushManager.Clock` | Processor/Src/Cache/CacheFlushManager.sv:41-120 | One clock edge gives the manager's next state, its requests and its completion. |
| `FlushHandshake.FlushStartsTogether` | Processor/Src/Cache/CacheFlushManager.sv:71-79 | In every run of the three parties both caches enter their flush in exactly the cycle in which the manager sends its request. |
| `FlushHandshake.FlushEndsTogether` | Processor/Src/Cache/CacheFlushManager.sv:80-98 | In every run neither cache leaves before both have completed, and both leave in one cycle. |
| `FlushHandshake.NoStaleCompletion` | Processor/Src/Cache/CacheFlushManager.sv:80-92 | In every run a recorded completion is one that was signalled since the current request. |
| `FlushHandshake.AnnouncedWhenComplete` | Processor/Src/Cache/CacheFlushManager.sv:88-98 | In every run completion is announced only while both caches are complete, and both are back to normal one cycle later. |
| `FlushHandshake.HandshakeAdvances` | Processor/Src/Cache/CacheFlushManager.sv:62-99 | In every run the manager sends its request exactly when asked and both caches are ready, announces exactly one cycle after both are complete, and is free again when asked once more. |
| `FlushHandshake.RunCoordinated` | Processor/Src/Cache/CacheFlushManager.sv:50-120 | In every run the phases of the three parties stay in one of the agreed combinations. |
| `IntAlu.SubtractFlags` | Processor/Src/ExecUnit/IntALU.sv:40-48 | After a subtraction of any words of any width: C is unsigned at-least, Z equality, V signed overflow, N different from V signed less-than. |
| `IntAlu.ConditionsAfterSubtract` | Processor/Src/Pipeline/IntegerBackEnd/IntegerExecutionStage.sv:24-39 | What each of the nine branch conditions means after a subtraction of any words of any width. |
| `IntAlu.AddSubtract` | Processor/Src/ExecUnit/IntALU.sv:40-48 | Addition and subtraction are exact modulo the word size, with carry and overflow exactly when they leave the unsigned and signed range, and undo each other. |
| `IntAlu.CompareAgreesWithSubtract` | Processor/Src/ExecUnit/IntALU.sv:127-134 | SLT and SLTU agree with the flags of the subtraction and with the branch conditions read from them. |
| `IntAlu.ComparisonFlags` | Processor/Src/ExecUnit/IntALU.sv:127-134 | A comparison sets Z exactly when it fails, and no other flag. |
| `Core.AndBits` | Processor/Src/ExecUnit/IntALU.sv:113-115 | The AND of two words has exactly the bits that both have. |
| `Core.OrBits` | Processor/Src/ExecUnit/IntALU.sv:136-137 | The ORR has exactly the bits that one of them has. |
| `Core.EorBits` | Processor/Src/ExecUnit/IntALU.sv:117-118 | The EOR has exactly the bits in which they differ. |
| `Core.LogicSetsFlags` | Processor/Src/ExecUnit/IntALU.sv:161-164 | The operations other than addition, subtraction and comparison clear C and V; Z and N are those of the result. |
| `Core.SubtractSetsFlags` | Processor/Src/ExecUnit/IntALU.sv:161-164 | The flags that the interpreter's subtraction of two 32-bit words sets have the same meaning. |
| `Core.ZeroResultSetsZ` | Processor/Src/ExecUnit/IntALU.sv:161-164 | Z after a subtraction is set exactly when the 32-bit result is zero, which is for equal words. |
| `AsmEncoding.DecodeR3` | Processor/Tools/Asm/m65f32asm.c:191-194 | The disassembler returns the R3 fields that were encoded. |
| `AsmEncoding.DecodeI13F` | Processor/Tools/Asm/m65f32asm.c:195-198 | The same for I13F, with the immediate sign-extended. |
| `AsmEncoding.DecodeM14` | Processor/Tools/Asm/m65f32asm.c:199-201 | The same for M14, with the offset sign-extended. |
| `AsmEncoding.DecodeU20J26` | Processor/Tools/Asm/m65f32asm.c:202-210 | The same for U20 and J26. |
| `AsmEncoding.DecodeB21` | Processor/Tools/Asm/m65f32asm.c:205-207 | The same for B21, with the displacement sign-extended. |
| `AsmEncoding.EncodeDecodedR3` | Processor/Tools/Asm/m65f32dis.c:90-109 | Re-encoding the decoded fields of any word gives back the word. |
| `AsmEncoding.EncodeDecodedI13F` | Processor/Tools/Asm/m65f32dis.c:90-109 | The same for I13F. |
| `AsmEncoding.EncodeDecodedM14` | Processor/Tools/Asm/m65f32dis.c:90-109 | The same for M14. |
| `AsmEncoding.EncodeDecodedU20J26` | Processor/Tools/Asm/m65f32dis.c:90-109 | The same for U20 and J26. |
| `AsmEncoding.EncodeDecodedB21` | Processor/Tools/Asm/m65f32dis.c:90-109 | The same for B21, for every word with the branch opcode. |
| `AsmMeaning.CoreLawful` | Processor/Src/ExecUnit/IntALU.sv:105-137 | The 32-bit machine meets the three laws of addition and or that the lowering proofs use. |
| `AsmLowering.LoadConstExact` | Processor/Tools/Asm/m65f32asm.c:223-231 | The emitted words, decoded and run, leave exactly the 32-bit constant in any register but 0 and change nothing else. |
| `AsmLowering.SetupComputes` | Processor/Tools/Asm/m65f32asm.c:244-341 | For every memory mode the words before the access make base plus offset the mode's effective address, changing only T. |
| `AsmMeaning.LoadMeans` | Processor/Tools/Asm/m65f32asm.c:244-341 | A lowered load reads exactly the effective location (memory or window register), for every mode and any 32-bit absolute offset; no flag, no memory and no register but T and the destination changes. |
| `AsmMeaning.StoreMeans` | Processor/Tools/Asm/m65f32asm.c:244-341 | A lowered store writes the data register to the effective address and changes only T besides, unless it stores T through a mode that needs T. |
| `AsmMeaning.StoreOfScratch` | Processor/Tools/Asm/m65f32asm.c:244-341 | In that case what is stored is the base of the address. |
| `AsmMeaning.StoreOfScratchWrong` | Processor/Tools/Asm/m65f32asm.c:244-341 | For every such mode there is a state in which that word differs from T. |
| `AsmMeaning.CoreLoadOfStored` | Processor/Tools/Asm/m65f32asm.c:244-341 | On the 32-bit machine a lowered store followed by a lowered load through the same mode brings the stored register's contents into the destination, when the mode's address depends neither on memory nor on T. |
| `AsmMeaning.WindowStoreMeans` | Processor/Tools/Asm/m65f32asm.c:248-260 | A store to a register-window address is a register move. |
| `AsmLowering.WindowOfRegister` | Processor/Tools/Asm/m65f32asm.c:236-240 | Register n of the window is at direct-page address 4n, and no other operand value names it. |
| `AsmMeaning.ImmediateMeans` | Processor/Tools/Asm/m65f32asm.c:345-353 | dst becomes src1 OP the 32-bit immediate with the ALU's flags, for every immediate that is long, not negative, or of a sign-extended operation. |
| `AsmMeaning.ImmediateWrong` | Processor/Src/Decoder/Decoder.sv:224-277 | For every other immediate some value of src1 gives a wrong result. |
| `AsmMeaning.OperandMeans` | Processor/Tools/Asm/m65f32asm.c:354-362 | dst becomes src1 OP the contents of the effective location with the ALU's flags, for every memory and window mode. |
| `Backpatch.BackpatchTransparent` | Processor/Tools/Asm/m65f32asm.c:1760-1787 | If no two emitted words overlap and the fixups resolve, the patched image is the one an assembler knowing every label would have emitted. |
| `Backpatch.UnresolvedRefused` | Processor/Tools/Asm/m65f32asm.c:1764-1777 | With an undefined label or a misaligned branch the resolution is refused. |
| `Backpatch.PatchedReference` | Processor/Tools/Asm/m65f32asm.c:728-750 | After the fixups the image holds, at the position of every reference, the word that its label's address gives, whether the label was known or not. |
| `Backpatch.PatchedCode` | Processor/Tools/Asm/m65f32asm.c:158-170 | After the fixups the image holds every plain instruction word at its position. |
| `Backpatch.LabelAddress` | Processor/Tools/Asm/m65f32asm.c:762-774 | A label's address is that of the item behind it, and only label items define labels. |
| `Backpatch.ProgramPadded` | Processor/Tools/Asm/m65f32asm.c:158-170 | Assembling and patching leave every byte above the reported end of the code as it was. |
| `AsmTargets.BranchReaches` | Processor/Src/Decoder/DecodedBranchResolver.sv:56-59 | The target the hardware computes for an assembled branch is the label if and only if the displacement is aligned and fits 21 signed words. |
| `AsmTargets.JumpReaches` | Processor/Src/Decoder/DecodedBranchResolver.sv:63-66 | The same for a jump, if and only if the label is aligned and in the pc's 256 MB region. |
| `AsmTargets.ImageShared` | Processor/Tools/Asm/m65f32asm.c:158-162 | Two different addresses have one place in the image exactly when one is in RAM and the other is that place. |
| `AsmTargets.ImageInjective` | Processor/Tools/Asm/m65f32asm.c:158-162 | The ROM below 0x10000 and the RAM do not overlap in the image, in themselves or with each other. |
| `AsmUnits.Assembler.Emit32` | Processor/Tools/Asm/m65f32asm.c:158-170 | Writing four bytes in place at the mapped address, or refusing, is the specified step. |
| `AsmUnits.Assembler.DefineLabel` | Processor/Tools/Asm/m65f32asm.c:762-774 | A label is defined once, at the current pc. |
| `AsmUnits.Assembler.SetOrigin` | Processor/Tools/Asm/m65f32asm.c:794-800 | The pc moves, the image stays. |
| `AsmUnits.Assembler.EmitReference` | Processor/Tools/Asm/m65f32asm.c:728-750 | A known label is encoded at once, an unknown one leaves a zero word and a fixup. |
| `AsmUnits.Assembler.ResolveFixups` | Processor/Tools/Asm/m65f32asm.c:1760-1787 | The patching loop over the code buffer yields the specified image, or the error. |
| `AsmUnits.Assembler.EmitLoadConst` | Processor/Tools/Asm/m65f32asm.c:223-231 | Emits the words whose meaning LoadConstExact states. |
| `AsmUnits.Assembler.EmitMemAccess` | Processor/Tools/Asm/m65f32asm.c:244-341 | Emits the words whose meaning LoadMeans and StoreMeans state, or refuses the mode. |
| `AsmUnits.Assembler.EmitAluMem` | Processor/Tools/Asm/m65f32asm.c:345-362 | Emits the words whose meaning ImmediateMeans and OperandMeans state. |
| `BranchResolver.Resolve` | Processor/Src/Decoder/DecodedBranchResolver.sv:46-129 | From instruction words, pcs and predictions: the lane loop keeps the lanes up to the first certain misprediction, lets it trigger, flushes all later ones, recovers to the target that its word gives, and leaves every kept prediction possibly right. |
| `BranchResolver.FlushIffMispredicted` | Processor/Src/Decoder/DecodedBranchResolver.sv:69-129 | No flush is triggered if and only if every valid lane's prediction may still be right. |
| `BranchExecution.ResolvedAgainstExecution` | Processor/Src/Decoder/DecodedBranchResolver.sv:69-129 | In words, predictions and flags: a valid lane triggers exactly when no flags make its prediction right and no earlier lane did, except a branch with a reserved code predicted not taken; kept predictions can be right, and always are for unconditional branches, jumps and other instructions. |
| `BranchExecution.ExactUnlessOverlooked` | Processor/Src/Decoder/Decoder.sv:417-431 | A lane is found wrong exactly when it is, if and only if it is not such a branch. |
| `BranchExecution.ReservedBranchPasses` | Processor/Src/Decoder/Decoder.sv:417-431 | A branch with code 9 predicted not taken is always taken and is not found wrong. |
| `ProgramImage.ReferenceRecovered` | Processor/Src/Decoder/DecodedBranchResolver.sv:50-129 | A branch or jump to a label, assembled, patched, fetched from the image and resolved: its lane's target is the label, and when it triggers the recovered pc is the label, if and only if the label is in reach. |
| `ProgramImage.ReferenceLandsOnLabel` | Processor/Tools/Asm/m65f32asm.c:762-774 | The pc recovered to is the address of the item behind the label if and only if that address is in reach. |
| `HexFile.HexRoundTrip` | Processor/Tools/Asm/m65f32dis.c:600-631 | Reading back the lines written restores every byte of the image, padding included, and the end reported is the end of the last word that is not padding. |
| `HexFile.ReadPlaces` | Processor/Tools/Asm/m65f32dis.c:600-631 | From any lines: line k stands for the places 16k to 16k + 15, an unreadable line leaves padding there, and no other line touches them. |
| `ProgramImage.ProgramRoundTrip` | Processor/Tools/Asm/m65f32asm.c:1793-1803 | The image of any program that assembles and resolves, written to the hex file and read back, is the same image. |
| `HexFile.WriteHex` | Processor/Tools/Asm/m65f32asm.c:1793-1803 | The loop writes the lines of the specified file, rounded up and at least up to the first line of RAM. |
| `HexFile.ReadHex` | Processor/Tools/Asm/m65f32dis.c:600-631 | Filling the buffer in place from any lines, short and unreadable ones included, gives the specified image and end. |
| `HexCodec.HexadecimalLawful` | Processor/Tools/Asm/m65f32asm.c:1799-1800 | Eight hexadecimal digits and four little-endian bytes both restore the word. |
| `HexCodec.LineShowsBytes` | Processor/Tools/Asm/m65f32asm.c:1793-1803 | A line is the digits of its sixteen bytes, the one at the highest address first. |
| `TraceIds.CreateGidRecovers` | Processor/Tools/KanataConverter/RSD_Parser.py:55-82 | The true id is recovered from its serial whenever it is less than a quarter of the range away from the newest retired one, in either direction. |
| `TraceIds.QuarterFails` | Processor/Tools/KanataConverter/RSD_Parser.py:66-82 | At exactly a quarter an id comes back wrong. |
| `TraceIds.QuarterIsTight` | Processor/Tools/KanataConverter/RSD_Parser.py:66-82 | All ids closer than d come back right if and only if d is at most a quarter of the range. |
| `TraceTheorems.NoLateEvent` | Processor/Tools/KanataConverter/RSD_Parser.py:228-272 | In every run with non-negative increments no line adds an event to a cycle already announced. |
| `TraceReplay.EventsTellLines` | Processor/Tools/KanataConverter/RSD_Parser.py:225-274 | In every run, replayed since its last INIT, an op's events nest exactly if no line of it breaks them; then open stage and stall are those of its last line, and it is retired, flushed and labelled exactly if its lines say so, each once. |
| `TraceReplay.ParseAdds` | Processor/Tools/KanataConverter/RSD_Parser.py:365-384 | The final disposal adds no event, so what holds of the events added by the lines holds of a whole file. |
| `TraceReplay.MoveAfterStallBreaks` | Processor/Tools/KanataConverter/RSD_Parser.py:230-244 | A trace of two lines, the second of which ends a stall and moves the op: its stages are closed and opened twice. |
| `TraceReplay.StageLineTimely` | Processor/Tools/KanataConverter/RSD_Parser.py:230-271 | A stage line adds events for the current cycle, except that an op leaves the last stage, and retires, in the next one. |
| `TraceReplay.BooksTellLines` | Processor/Tools/KanataConverter/RSD_Parser.py:354-363 | In every run the newest retired id, the count of commits, and the ops whose further flush lines are ignored follow from the lines. |
| `TraceKeeping.OpsKeptUntilRetired` | Processor/Tools/KanataConverter/RSD_Parser.py:338-351 | When events are taken out an op is kept until the first retirement that takes it out, and an event is handed over exactly while its op is kept. |
| `TraceTheorems.EmittedIncreasing` | Processor/Tools/KanataConverter/RSD_Parser.py:328-335 | In every such run the announced cycles strictly increase, even when an exception ends it. |
| `TraceTheorems.NothingLost` | Processor/Tools/KanataConverter/RSD_Parser.py:290-295 | In the middle of a run, for every cycle, the events added are those taken followed by those buffered, and never both. |
| `TraceTheorems.ParsedIsStableSort` | Processor/Tools/KanataConverter/RSD_Parser.py:328-351 | A file read to its end leaves nothing buffered, and the events taken are a stable sort by cycle of the events added. |
| `TraceTheorems.DeltasSum` | Processor/Tools/KanataConverter/KanataGenerator.py:137-142 | The deltas written, from the initial cycle on, sum to the last cycle announced. |
| `TraceOutput.ReaderSeesEvents` | Processor/Tools/KanataConverter/KanataGenerator.py:137-149 | A reader adding up the deltas sees every event written at the cycle it was recorded for, in the order taken; written is exactly what was handed over for an op that is open in the history (or opens it) and has a stage name. |
| `TraceOutput.ReaderSeesAllHanded` | Processor/Tools/KanataConverter/KanataGenerator.py:144-149 | The reader sees everything that was handed over if and only if all of it could be written in that sense. |
| `TraceDropped.HandedButNotWritten` | Processor/Tools/KanataConverter/KanataGenerator.py:144-149 | A trace of eleven lines, read without an exception, of which an event is handed to the generator and dropped. |
| `TraceOutput.CancelledOpHidden` | Processor/Tools/KanataConverter/RSD_Parser.py:261-267 | An op flushed in the first stage within three cycles of its first event, and not seen again, never shows up in the output of the whole file. |
| `TraceUnits.KanataGenerator.OnCycle` | Processor/Tools/KanataConverter/KanataGenerator.py:137-142 | A delta is written exactly when the cycle is later than the current one, and the clock follows. |
| `TraceUnits.KanataGenerator.OnEvent` | Processor/Tools/KanataConverter/KanataGenerator.py:144-153 | An event of an unknown op is dropped, one whose stage has no name ends the run, and any other is written and updates the map of known ops. |
| `TraceUnits.KanataGenerator.OnRetire` | Processor/Tools/KanataConverter/KanataGenerator.py:250-256 | A retired op leaves the map, and every 64th takes all older ones with it. |
| `TraceUnits.RsdParser.AddEvent` | Processor/Tools/KanataConverter/RSD_Parser.py:290-295 | The event is appended to its cycle's list, created if absent; no other list changes. |
| `TraceUnits.RsdParser.OnStage` | Processor/Tools/KanataConverter/RSD_Parser.py:189-274 | One stage line on the parser's fields: events, tracked op, retirement, flush, and the exceptions for a bad micro-op number and a flushed op that is not tracked. |
| `TraceUnits.RsdParser.OnLabel` | Processor/Tools/KanataConverter/RSD_Parser.py:298-317 | A label is recorded once for each op, and an unknown op raises an exception. |
| `TraceUnits.RsdParser.ProcessEvents` | Processor/Tools/KanataConverter/RSD_Parser.py:328-351 | The loop over the sorted cycles stops at the first one not yet due, or at a retirement of an op that is gone. |
| `TraceUnits.RsdParser.RetireOp` | Processor/Tools/KanataConverter/RSD_Parser.py:354-359 | The newest retired id moves on and older flushed ids are forgotten. |
| `TraceUnits.RsdParser.Parse` | Processor/Tools/KanataConverter/RSD_Parser.py:365-384 | Reading all lines and disposing of the rest on the object's fields gives the run that the theorems speak of. |

## Left out

- DCacheFlushTheorems.FlushWritesBack: for a one-way cache only, because the flush of the source names no way; DCacheSweep.FlushCoversOneWay states what holds for more.
- DCacheFlushTheorems.FlushEndsClean: for a one-way cache only, for the same reason.
- ICacheTheorems.FetchDeliversMemory: for fetch groups of at most one instruction more than a line; HitLanesPrefix shows that wider ones report lanes beyond the line.
- AsmMeaning.LoadMeans: an access is one little-endian word at any byte address; alignment faults and the memory map are not modelled.
- AsmTargets.BranchReaches: program counters have all 32 bits; the narrow program counter of some configurations is not modelled.
- AsmUnits.Assembler.Emit32: the overflow test is made on unbounded numbers, so an address within three bytes of 2^32, which wraps in C, is refused here.
- AsmUnits.Assembler.EmitReference: labels are compared as abstract case-insensitive names; branches to a plain number and messages are not modelled.
- HexFile.ReadHex: a line counts as readable when its first 32 characters are hexadecimal digits; the other spellings that C's `sscanf` accepts, and lines longer than the buffer of `fgets`, are not modelled.
- Core.SubtractSetsFlags: the interpreter's flags of additions, subtractions and comparisons are those of the ALU on numbers; its results are 32-bit vectors, and of their flags only Z of a subtraction is tied to the vector (ZeroResultSetsZ), not N to its top bit.
- TraceUnits.RsdParser.OnStage: op serial, micro-op number and update cycle are dropped from an op, since nothing reads them; warnings printed on the way are not modelled.
- TraceUnits.KanataGenerator.OnEvent: an event written is one output line; the text of the commands, the generator's own serial and retirement ids and its messages are not modelled.
- ICacheUnits.ICache.Clock: the ways and the NRU array share one reset index here, since all copies count alike.
- Reset sequences: the caches start with their arrays cleared; the sweep that clears them after power-on is not modelled.
- Text parsing, mnemonic tables, directives, bytes and strings, shifts, multiplication, division, floating point and system instructions of the assembler and decoder.
- The disassembler's text, including its recognition of instruction pairs.
- Store committer, replay queue, memory controller, AXI bridges and pipeline stages: they are the inputs of the models.
- Register renaming and out-of-order execution: the interpreter runs one instruction after the other.
- MSHR deadlock detection and other simulation-only code.
