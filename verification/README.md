# A verified model of the simulator's memory, scheduler and timer

The simulator has three state machines that share threads: demand paging over one RAM device and
one swap device, a 140-level queue scheduler driven by CPU loops, and a slot timer that keeps the
CPUs and the loader in step.  This project models all three in Dafny and proves what each keeps
over every run.  `dafny verify dfyconfig.toml` checks everything.

Each part has two layers.  *Functions on values* say what one library call, or one section under a
lock, computes; lemmas about them carry the theorems over whole runs.  *Classes* hold the program's
own fields, arrays, lists and loops, and every method is proved to compute exactly the function.

| files | what they hold |
|---|---|
| `PteCodec`, `Paging`, `Regions` | page-table words, page faults, the region allocator, byte access |
| `Ownership`, `PagingRuns`, `Eviction` | invariants of all processes, runs against flat memory, swap and eviction over runs |
| `CopyLoops`, `Reclaim` | the kernel/user copy loops, `free_pcb_memph` |
| `MemPhy`, `MmStruct`, `Kernel` | the same calls on arrays and lists |
| `Queue`, `Mlq`, `MlqFairness`, `Scheduler` | bounded queues, `get_mlq_proc`, waiting bounds, the scheduler's statics |
| `Cpu`, `CpuRuns`, `Simulator` | CPU loops and loader, conservation and execution over runs, the shared variables |
| `CpuFairness`, `CpuProgress` | the waiting bounds inside the simulator; how long its CPUs can be busy |
| `SlotRuns`, `SlotBound`, `SlotEnds` | CPUs, loader and timer together; how many slots the simulator takes; how its threads end |
| `ProgramMemory` | what one program sees of memory while it runs among others |
| `Witnesses` | runs from start-up on which the code fails what one would expect |
| `Timer` | the timer and its devices with sleep and signal made explicit |
| `Options`, `Sequences` | shared helpers |

## Main results

* **Paging refines flat memory.**  Over any interleaving of allocations, frees, reads and writes by
  any number of processes, a successful read returns the last byte written at that process and
  address, through any evictions and reloads (`ReadReturnsLastWrite`).  A page fault, successful or
  not, changes no byte of any page of any process (`FaultKeeps`).
* **Ownership.**  In every reachable state a RAM frame is free once or named by one page-table entry;
  a swapped page has its slot to itself; slots are used up in list order and never reissued.
* **Eviction is last in, first out**, in spite of the name `fifo_pgn`: once RAM is full, all pages of
  a process but the newest stay in their frames for as long as swap lasts.  Every resident page is on
  its list, exactly unless a fault has found swap full (`ListedIsResident`).
* **Success.**  A read or a write succeeds exactly when its symbol has a region, the 64-bit sum lies
  below the region's end, and its page is resident or can be brought in (`ReadSucceeds`).
* **Regions.**  Live and free regions never share a byte.  After a run they tile the area exactly if
  none of its successful allocations named a live symbol (`RunStaysTiled`); the bytes such an
  allocation forgets never come back (`LostForGood`).
* **Waiting.**  A non-empty level is served within 9870 - (140 - q) + 1 calls, a process with k
  others ahead of it, and j more that overtake it, within (k + j + 1) * 9870, also when the calls
  are those of the simulator's CPUs (`QueuedProcessIsFetched`).
* **Conservation.**  Over every run, with any number of processes and CPUs, an admitted process is in
  exactly one place: queued once, held by one CPU, freed after its last instruction, or dropped,
  which happens exactly when it is enqueued on a full ready queue (`ProcessesAreConserved`).  That
  takes 50 other live processes of its level (`DropNeedsFifty`).
* **Execution.**  A dispatch runs exactly min(time_slot, size - pc) instructions; a finished process
  has executed each instruction once and in order.
* **The simulator finishes.**  CPUs, loader and timer are put together in `SlotRuns`.  When every CPU
  has stopped, or finds nothing to do, every admitted process has been freed after its last
  instruction, or was dropped; and when every CPU has stopped, those are all the programs
  (`SimulationFinishes`).  With no start time after s, all programs are done with by slot
  s + (number of programs) + work, where a program's work is a slot per instruction and one to free
  it, and one more if it is empty (`AllDoneInTime`).  A CPU that finds nobody after `done` stops and
  detaches, and once all have stopped the timer ends (`StopsForGood`, `SimulationCanEnd`).
* **Private memory.**  On any CPUs, under any schedule and beside any other processes, a load returns
  the byte that the same program last stored at that address, in its own program order
  (`LoadSeesOwnLastStore`).
* **Timer.**  In every reachable state time advances only when every device has arrived or finished
  and no wake-up is lost; between calls of the devices the threads come to rest after a bounded
  number of sections.

## Where the code differs from what is written about it

The model follows the code. `report.md:96` calls a level round-robin: it is, exactly among equal
`priority` values (`DequeueIsFifo`, `EqualPrioritiesQueueUp`); beside a smaller value a process can
wait through any number of calls (`SmallerNumberStarves`, reached as in `StarvationIsReached`).
`addr_t` is unsigned, so the tests for a failed mapping never fire and the break moves even when no
page was mapped (`GrowMaps`, `BreakMovesUnmapped`). `__alloc` on a live symbol forgets its region
(`AllocTiles`, `AllocationForgetsRegion`). The offset check of `__read` and `__write` adds in 64
bits and accepts sums that wrap around (`TargetInside`; `StoreIntoNeighbour` is a run in which such
a store hits another symbol). `get_free_vmrg_area` takes its size as `int` (`AllocHandsOut`, with
the run of `AllocationCutShort`). `free_pcb_memph` scans 512 of 16384 pages (`FreeAllReturnsAll`,
`PageBeyondTheScan`). `libkmem_copy_to_user` within one region reads bytes it has written
(`ToUserWithinRegionExact`, `CopyGoesWrong`). `enqueue` drops a process when its queue is full
(`ProcessesAreConserved`, `FiftyFirstIsDropped`).

A mask over bits l..h with a shift by l is modelled as the digit `v / 2^l % 2^(h-l+1)` of an unsigned
word; `SetThenGet` shows that writing one field leaves every other bit alone.

## Model

| member | source | states |
|---|---|---|
| PteCodec.SetThenGet | include/mm.h:72-76 | SETVAL followed by GETVAL of the same field gives the value's low bits; the bits above and below are unchanged |
| PteCodec.FpnRoundTrip | src/mm64.c:146-189 | whatever a word held, `pte_set_fpn` makes it present, not swapped, and naming the given frame exactly when that is below 2^13 |
| PteCodec.SwapRoundTrip | src/mm64.c:107-139 | whatever a word held, `pte_set_swap` makes it swapped, not present, and naming the given slot exactly when that is below 2^21 |
| PteCodec.EntryLayout | include/mm.h:17-40 | where the fields lie: bit 31 and bits 0..12 for a resident page, bit 30, bits 0..4 and bits 5..25 for a swapped one |
| PteCodec.AddressSplit | include/mm.h:79-88 | page number and offset tell addresses apart exactly up to the 22-bit bus, and rebuild an address on it |
| PteCodec.IndicesIdentifyPage | src/mm64.c:70-98 | the five 9-bit indices are equal only for equal page numbers |
| Paging.FirstFit | src/libmem.c:795-828 | the first free region that is large enough, none for a size that is not positive |
| Paging.AllocPages | src/mm64.c:311-366 | all the requested frames, the first of the list in order, or none and the same multiset of free frames |
| Paging.FaultWellFormed | src/libmem.c:232-304 | a fault leaves the page table, the eviction list and both free lists in order, so every listed page is resident and listed once |
| Regions.AlignedSizeRounds | include/mm64.h:14 | the size is rounded up to the next multiple of 4096 exactly when the 64-bit sum does not wrap around |
| Regions.AllocSucceeds | src/libmem.c:71-120 | when `__alloc` returns 0: a size, an existing symbol, and a region that fits or a size that can be rounded up, frames or not |
| Regions.AllocHandsOut | src/libmem.c:91-119 | the symbol's region starts at the returned address and no other symbol changes; it has the requested size exactly when that fits an `int` or no free region was cut |
| Regions.AllocCuts | src/libmem.c:795-823 | an allocation that the free list can serve cuts the first entry that holds it: entries before it stand; what is left over keeps its place; without a rest the entries behind move up, or an empty region stays; nothing else changes |
| Regions.AllocContinues | src/libmem.c:795-823 | the next allocation that the rest of that entry is first to hold goes on where this one ended |
| Regions.FreeMeans | src/libmem.c:129-160 | exactly a symbol whose region is not [0, 0) can be freed; it becomes empty and its region, unless empty, heads the free list |
| Regions.AllocAfterFree | src/libmem.c:34-48 | a freed region is the next one handed out for its size |
| Regions.CarveCounts | src/libmem.c:802-823 | split, clone-next removal and dummy node each take exactly the bytes handed out |
| Regions.AllocCovers | src/libmem.c:71-120 | for every address, how many regions cover it after an allocation: the new bytes once more, the symbol's old bytes once less |
| Regions.FreeCovers | src/libmem.c:129-160 | freeing covers every address as often as before |
| Regions.AllocStaysDisjoint | src/mm-vm.c:162-173 | regions that share no byte and lie below the break stay so |
| Regions.AllocTiles | src/libmem.c:94-96 | live and free regions still tile the area after an allocation exactly when the symbol had no region |
| Regions.DisjointMeans | src/libmem.c:94-119 | no address lies in two entries of the symbol table and the free list |
| Regions.TargetInside | src/libmem.c:384-389 | an accepted access stays inside its region exactly when start plus offset does not wrap around 2^64 |
| Regions.GrowMaps | src/mm-vm.c:136-173 | growth maps one page per 4096 bytes to the first free frames in order and lists them, changing no other page; on a shortage it maps none and the list comes back reversed |
| Regions.AllocGrows | src/libmem.c:105-119 | an allocation that no free region can serve: the new break, the symbol at the old one, the leftover in front of the free list, and the pages mapped |
| Ownership.EvictMoves | src/libmem.c:246-272 | moving the victim to a free slot keeps every invariant and every byte, with the victim's frame in hand |
| Ownership.EvictFails | src/libmem.c:246-256 | with swap full the victim leaves the list, stays resident, and no byte changes |
| Ownership.LoadMapKeeps | src/libmem.c:278-299 | swapping a page in and mapping it keeps ownership and every byte of every process |
| Ownership.FaultKeeps | src/libmem.c:232-304 | a page fault, successful or failed, keeps ownership and changes no byte of any page of any process |
| Ownership.MapAllKeeps | src/mm64.c:261-302 | mapping fresh pages to frames in hand gives each frame exactly one owner and overwrites no live entry |
| Ownership.GrowKeeps | src/mm-vm.c:124-178 | break growth maps only pages that were never mapped and keeps every invariant and byte |
| PagingRuns.PokeKeeps | src/libmem.c:360-363 | a store changes one byte of one page of one process |
| PagingRuns.WriteKeeps | src/libmem.c:432-454 | after a successful `__write` the byte is there and every other defined byte of every process is as before |
| PagingRuns.ReadKeeps | src/libmem.c:376-390 | a successful `__read` returns the byte at its address and changes no byte |
| PagingRuns.SymbolsAreIsolated | src/libmem.c:432-454 | a store through one live symbol changes no byte of another symbol's region when start plus offset does not wrap around 2^64, and lands outside its own region when it does |
| PagingRuns.GrowthPastTheBusOverwrites | src/mm64.c:261-302 | at a break of 4 MiB mapping starts over at page 0: a live entry is replaced, its frame is owned by nobody, and the page is listed twice |
| PagingRuns.StepKeepsGood | src/libmem.c:71-454 | every call of every process keeps ownership, page/break, eviction-list and region invariants |
| PagingRuns.StepRefinesFlat | src/libmem.c:232-366 | every call is a step of flat byte memory |
| PagingRuns.RunRefinesFlat | src/libmem.c:232-366 | every run's loads and stores are a history of flat byte memory |
| PagingRuns.ReadReturnsLastWrite | src/libmem.c:376-454 | in any run a successful read returns the last byte successfully written at that process and address |
| PagingRuns.BootGood | src/mm-memphy.c:253-267 | freshly formatted devices satisfy the invariant every run starts from |
| PagingRuns.EveryFrameHasOneOwner | src/libmem.c:244-299 | in every reachable state a frame is on the free list once or named by one entry of one process, never both or neither |
| PagingRuns.EverySwappedPageHasASlot | src/libmem.c:253-270 | in every reachable state a swapped entry's slot is off the free list and named by no other entry |
| PagingRuns.EveryRegionIsSeparate | src/mm-vm.c:154-173 | in every reachable state regions share no byte, mapped pages start below the break, and no page is listed twice |
| Eviction.GuardNeverFires | src/libmem.c:743-751 | no eviction list is longer than RAM, so the 10000-step guard never fires |
| Eviction.FaultEffect | src/libmem.c:232-304 | everything a fault does: nothing for a resident page; with a free frame the page gets the first and joins the list at its tail; else it takes the frame and the place of the tail, which goes to the first free slot; failing that only the tail leaves the list |
| Eviction.FaultFills | src/libmem.c:278-288 | a swapped page finds the bytes of its slot in its frame, and no other frame changes |
| Eviction.FaultSucceeds | src/libmem.c:236-256 | a fault succeeds exactly when the page is resident, a frame is free, or there is a victim and a slot |
| Eviction.ReadSucceeds | src/libmem.c:376-390 | `__read` succeeds exactly for one of 30 symbols with a region, an offset whose 64-bit sum with its start lies below its end, and a page that is resident, or a free frame, or a page to evict with a slot to take it; the byte loaded is the one at that sum |
| Eviction.WriteSucceeds | src/libmem.c:432-454 | so does `__write`, which stores at that sum |
| Eviction.StepTakesSlots | src/libmem.c:253-256 | a call takes a slot off the list exactly when it swaps out, and the first one |
| Eviction.SlotsNeverReissued | src/libmem.c:278-288 | over any run the free slots are a tail of those at the start, one fewer for every swap-out |
| Eviction.EvictionIsLastInFirstOut | src/libmem.c:734-767 | with RAM full and swap not, a run leaves every listed page but the newest in its place and frame |
| Eviction.ListedIsResident | src/libmem.c:232-304 | after a run every resident page of every process is on its eviction list exactly if no fault of the run found a victim and no slot to take it |
| Eviction.RunStaysTiled | src/libmem.c:71-160 | a run that starts with live and free regions tiling the area ends so exactly when none of its successful allocations named a live symbol |
| Eviction.LostForGood | src/libmem.c:94-96 | an address below the break that no region covers stays uncovered through every run |
| CopyLoops.CopyRound | src/libmem.c:592-599 | one round moves one byte from source to destination, or stops the loop |
| CopyLoops.CopyCopies | src/libmem.c:584-622 | for ranges that are apart or copied towards the start every byte arrives as it was before; no byte outside the destination changes, whether or not the loop succeeds |
| CopyLoops.FromUserCopies | src/libmem.c:584-602 | `libkmem_copy_from_user` makes byte i the old byte offset + i, also within one region |
| CopyLoops.ToUserCopies | src/libmem.c:604-622 | `libkmem_copy_to_user` does the symmetric copy between different regions |
| CopyLoops.CopyThereAndBack | src/libmem.c:584-622 | a range copied into kernel memory and back is restored, whatever ran in between, if nothing wrote the copy |
| CopyLoops.ToUserWithinRegion | src/libmem.c:612-619 | within one region byte offset + i becomes the old byte i % offset |
| CopyLoops.ToUserWithinRegionExact | src/libmem.c:612-619 | within one region that is a copy exactly when every source byte from `offset` on equals the byte `offset` places before it |
| CopyLoops.CopyIsARun | src/libmem.c:584-622 | a copy call is a run of byte loads and stores, each store of the byte just loaded, at the addresses of its rounds in order; it succeeds exactly when all of them do, and otherwise stops at the first that does not |
| CopyLoops.GoodIsReady | src/libmem.c:94-119 | in every state a run reaches, different live symbols are apart and a copy between them can start |
| Reclaim.CollectReturns | src/libmem.c:709-723 | the scan returns exactly the frames and slots its pages name, each once, and both lists stay free of duplicates |
| Reclaim.CollectInOrder | src/libmem.c:709-723 | frames and slots come back in reverse page order in front of what was free, and nothing else changes |
| Reclaim.FreeAllReturnsAll | src/libmem.c:703-723 | everything a process holds comes back exactly when none of its mapped pages is at or above 512 of the 16384 |
| Witnesses.AllocationCutShort | src/libmem.c:775-834 | a run in which an allocation of 4 GiB and a byte is served with one byte |
| Witnesses.StoreIntoNeighbour | src/libmem.c:443-450 | a run in which a store through symbol 1 changes the last byte of symbol 0 |
| Witnesses.PageBeyondTheScan | src/libmem.c:703-723 | a run after which the scan does not return a frame that the process holds |
| Witnesses.CopyGoesWrong | src/libmem.c:604-622 | a run after which `libkmem_copy_to_user` within one region does not deliver the bytes 1, 2 |
| Witnesses.BreakMovesUnmapped | src/mm-vm.c:154-163 | with two frames an allocation of 12288 bytes succeeds and moves the break, and no page of the process is mapped |
| Witnesses.AllocationForgetsRegion | src/libmem.c:94-96 | a run in which an allocation on a live symbol loses the byte at address 0 |
| Witnesses.PageZeroIsReplaced | src/mm64.c:261-302 | one allocation of 4 MiB takes the break to the end of the bus, where the next mapping replaces the entry of page 0 and leaves its frame without an owner |
| MemPhyDevice.PaginateByte | src/mm-memphy.c:108-119 | storing a byte changes its own frame only |
| MemPhyDevice.MemPhy.constructor | src/mm-memphy.c:253-267 | zeroed storage, frames 0, 1, 2, ... free in this order |
| MemPhyDevice.MemPhy.Format | src/mm-memphy.c:125-151 | the free list holds every frame once, in order; a device without a frame is refused and its list left alone |
| MemPhyDevice.MemPhy.GetFreeFp | src/mm-memphy.c:153-169 | takes the first free frame, fails on an empty list |
| MemPhyDevice.MemPhy.PutFreeFp | src/mm-memphy.c:237-248 | puts a frame at the head of the list |
| MemPhyDevice.MemPhy.Read | src/mm-memphy.c:68-79 | the byte of the frame at an address, in random-access mode |
| MemPhyDevice.MemPhy.Write | src/mm-memphy.c:108-119 | that byte replaced and no other |
| MemPhyDevice.SwapCpPage | src/mm64.c:424-440 | the destination frame becomes a copy of the source frame, all other frames and both lists unchanged |
| MmStructs.MmStruct.constructor | src/mm64.c:447-520 | every page absent, every symbol empty, one empty free region, break 0 |
| MmStructs.MmStruct.PteSetFpn | src/mm64.c:146-189 | the entry names the frame modulo 2^13, hence the frame itself exactly below 2^13; no other entry changes |
| MmStructs.MmStruct.PteSetSwap | src/mm64.c:107-139 | the entry names the slot modulo 2^21, hence the slot itself exactly below 2^21; no other entry changes |
| MmStructs.MmStruct.EnlistPgnNode | src/mm64.c:547-571 | the page joins the list at its tail |
| MmStructs.MmStruct.FindVictimPage | src/libmem.c:734-767 | the tail of the list, removed, unless the walk to it exceeds the guard |
| MmStructs.MmStruct.GetFreeVmrgArea | src/libmem.c:775-834 | the first region that fits, cut as the value model cuts it (`AllocCuts` says how), or nothing changed |
| MmStructs.MmStruct.Release | src/libmem.c:129-160 | fails on an empty or unknown symbol; else empties it and puts its region at the head of the list |
| Kernels.Kernel.PgGetPage | src/libmem.c:232-304 | computes the page fault of the value model (`FaultEffect`) on the real words, lists and storage |
| Kernels.Kernel.Read | src/libmem.c:376-390 | computes the value model's read, which succeeds as `ReadSucceeds` says and returns the byte as `ReadKeeps` says |
| Kernels.Kernel.Write | src/libmem.c:432-454 | computes the value model's write, which succeeds as `WriteSucceeds` says and stores as `WriteKeeps` says |
| Kernels.Kernel.AllocPagesRange | src/mm64.c:311-366 | the loop with its cleanup takes all the frames or none |
| Kernels.Kernel.VmapPageRange | src/mm64.c:261-302 | the loop maps and lists the pages in order |
| Kernels.Kernel.VmMapRam | src/mm64.c:377-416 | takes the frames and maps them, or maps nothing, without an error either way |
| Kernels.Kernel.IncVmaLimit | src/mm-vm.c:124-178 | the break moves, the leftover is enlisted, and pages are mapped as the value model says |
| Kernels.Kernel.Alloc | src/libmem.c:71-120 | computes the value model's allocation, which cuts the free list as `AllocCuts` says and grows the area as `AllocGrows` says |
| Kernels.Kernel.Free | src/libmem.c:129-160 | computes the value model's free, which is as `FreeMeans` says |
| Kernels.Kernel.CopyFromUser | src/libmem.c:584-602 | the loop computes the value model's copy |
| Kernels.Kernel.CopyToUser | src/libmem.c:604-622 | the loop computes the value model's copy |
| Kernels.Kernel.FreePcbMemph | src/libmem.c:693-727 | the loop puts back what the scanned words name |
| ReadyQueue.Best | src/queue.c:41-47 | the smallest `priority`, the earliest on a tie |
| ReadyQueue.DequeueIsFifo | src/queue.c:41-47 | dequeue takes the front exactly when nobody behind has a smaller `priority` |
| ReadyQueue.Queue.Enqueue | src/queue.c:12-30 | the process joins at the end, or is dropped when 50 are there |
| ReadyQueue.Queue.Dequeue | src/queue.c:32-57 | takes the best process, the others keep their order |
| ReadyQueue.Queue.DequeueFifo | src/queue.c:59-72 | takes the front, the others keep their order |
| ReadyQueue.Queue.PurgeQueue | src/queue.c:74-94 | removes the first occurrence and says whether there was one |
| Mlq.ScanServes | src/sched.c:82-103 | the scan serves the first non-empty level in cyclic order from the cursor and uses one of its slots; after the last the cursor moves on |
| Mlq.GetConservesWork | src/sched.c:71-110 | nobody is served exactly when all 140 queues are empty, and then the cursor is back at its level with all its slots; otherwise only the served level, one of its slots and the running list change |
| Mlq.AddJoins | src/sched.c:132-149 | a new process joins the end of the queue numbered by its `prio`, or of queue 0 if that is not below 140, when fewer than 50 are there; no other queue changes |
| Mlq.PutBackJoins | src/sched.c:112-130 | so does a process that is put back, and it leaves the running list |
| MlqFairness.GetLowersRank | src/sched.c:82-103 | a call serves the waiting level or uses up slots that stand before it |
| MlqFairness.RankBound | src/sched.c:41-44 | at most 9870 - (140 - q) services can come before level q |
| MlqFairness.LevelWaitIsBounded | src/sched.c:71-110 | a level with work is served within 9870 - (140 - q) + 1 calls, however puts and adds come between |
| MlqFairness.BurstIsBounded | src/sched.c:84-95 | while another level has work, level p is served at most 140 - p times in a row |
| MlqFairness.BurstIsFull | src/sched.c:84-95 | while it has work, a level that the cursor has reached gets all its slots in a row, whatever is put, added or finished in between |
| MlqFairness.TakingBestAdvances | src/queue.c:32-57 | every service of a level that takes another process brings a waiting one forward by one |
| MlqFairness.ArrivalsQueueBehind | src/queue.c:12-30 | a process with an equal or larger `priority` joins behind |
| MlqFairness.ArrivalOvertakes | src/queue.c:12-57 | a process with a smaller `priority` that finds room puts one more ahead |
| MlqFairness.EqualPrioritiesQueueUp | src/queue.c:41-47 | with equal `priority` the processes ahead are those in front |
| MlqFairness.ProcessWaitIsBounded | src/sched.c:71-149 | in every run a process with k others ahead and j arrivals that overtake it is dispatched within (k + j + 1) * 9870 calls |
| MlqFairness.SmallerNumberStarves | src/queue.c:41-47 | beside a process with a smaller `priority` that keeps coming back, any number of calls can pass a process by |
| MlqFairness.StarvationIsReached | src/sched.c:132-149 | two additions to a new scheduler lead to such a level |
| Schedulers.Scheduler.constructor | src/sched.c:37-50 | empty queues, cursor at level 0 with its 140 slots |
| Schedulers.Scheduler.GetMlqProc | src/sched.c:71-110 | the loop with its persistent cursor computes the value model's call |
| Schedulers.Scheduler.PutMlqProc | src/sched.c:112-130 | computes the value model's put, which joins the queue of the process's own `prio` as `PutBackJoins` says |
| Schedulers.Scheduler.AddMlqProc | src/sched.c:132-149 | computes the value model's add, which joins the queue of the process's own `prio` as `AddJoins` says |
| Schedulers.Scheduler.FinishMlqProc | src/sched.c:160-164 | out of the running list |
| CpuLoop.CpuKeeps | src/os.c:60-118 | every section of a CPU keeps queued processes live and unheld, held processes live and held once, and the running list made of held processes |
| CpuLoop.GetMoves | src/sched.c:84-106 | a dispatched process leaves its queue, where nobody held it, for the running list, if there is room |
| CpuLoop.PutBackKeeps | src/os.c:84-91 | a process whose time is up leaves the running list and its CPU for its own queue, if there is room |
| CpuLoop.FinishKeeps | src/os.c:74-83 | a finished process leaves the running list and is in no queue |
| CpuLoop.RunningFits | src/sched.c:105-106 | while a CPU is idle the running list is shorter than the number of CPUs, so with at most 50 CPUs a dispatched process finds room in it |
| CpuRuns.LoaderKeeps | src/os.c:155-185 | admitting a process keeps the same invariant |
| CpuRuns.BootInv | src/os.c:247-313 | the state before the threads start is in order |
| CpuRuns.LookingMoves | src/os.c:63-106 | a CPU without a process stays at the top of its loop while all queues are empty, without a look at `done`; after a release it comes to the recheck, where it stops exactly if `done` is set; and it takes a process whenever one is queued |
| CpuRuns.HoldingMoves | src/os.c:74-118 | a CPU with a process releases it exactly at its end or when its time is up, frees it exactly at its end, and else runs |
| CpuRuns.LoaderMoves | src/os.c:170-187 | each round admits the next program, its counter at 0, into the queue of its own `prio`; the round after the last admission, and no other, sets `done` |
| CpuRuns.ProcessesAreConserved | src/sched.c:84-164 | at every moment of every run an admitted process that is not freed is in exactly one place: in its own queue once, or held by exactly one CPU, or dropped by an enqueue on a full ready queue; the running list holds held processes once each, all of them with at most 50 CPUs; a freed process has run to its end |
| CpuRuns.ActPlaces | src/queue.c:21-26 | a section loses a live process exactly when it enqueues it on a full ready queue, and no section finds a lost one again |
| CpuRuns.DropNeedsFifty | src/queue.c:21-26 | a process is dropped only beside 50 other live processes of its level |
| CpuRuns.UncrowdedDropsNobody | src/queue.c:21-26 | among at most 50 live processes nobody is ever dropped |
| CpuRuns.FiftyFirstIsDropped | src/queue.c:21-26 | of 51 processes of one level loaded before a CPU runs the last is dropped |
| CpuRuns.CpuPc | src/cpu.c:61-70 | a CPU's turn past the recheck executes exactly the instruction at the program counter, and no other section moves a counter |
| CpuRuns.RunsInOrder | src/cpu.c:61-70 | over any run, on any CPUs, a process executes exactly the instructions between its counters, once and in order |
| CpuRuns.FinishedMeansAllExecuted | src/os.c:74-83 | a freed process has executed every instruction once, in order |
| CpuRuns.SliceStep | src/os.c:84-118 | no section of any thread ends a slice early or lets it run on |
| CpuRuns.DispatchRunsOneSlice | src/os.c:107-118 | from dispatch to release exactly min(time_slot, size - pc) instructions run, or all that are left for a time slot below 1 |
| CpuFairness.ActIsItsCall | src/os.c:60-118 | a section of a CPU or of the loader changes the scheduler by one of its calls, or not at all |
| CpuFairness.QueuedProcessIsFetched | src/os.c:63-98 | a queued process is in the queue of its own `prio`; whatever the CPUs and the loader do, while it stays there with k others ahead and j overtake it, the CPUs call `get_proc` fewer than (k + j + 1) * 9870 times |
| CpuFairness.EqualProgramsTakeTurns | src/os.c:63-98 | with equal default priorities fewer than (i + 1) * 9870 calls pass the process at place i of its queue |
| CpuFairness.DispatchedFromOwnLevel | src/sched.c:84-106 | after any run `get_proc` hands out a process from the queue numbered by its `prio`, or from queue 0 if that is not below 140 |
| CpuProgress.BusySectionWorks | src/os.c:60-118 | every section of a CPU lowers the sections that are left to do, unless the CPU has stopped or finds no process at the top of its loop; and it lowers the slots that are left by one if it runs an instruction, dispatches an empty program, or frees a process |
| CpuProgress.BusySectionsAreBounded | src/os.c:60-118 | in any run, for any time slot, busy sections are no more than the work at its start and in the programs still to be loaded |
| CpuProgress.RunsAreBusyForBoundedTime | src/os.c:60-118 | from start-up the CPUs are busy for at most 5 sections per instruction, and 5 per empty program |
| CpuProgress.RestMeansFinished | src/os.c:60-118 | when all CPUs are idle or have stopped, every admitted process has been freed after its last instruction, or was dropped, exactly if all queues are empty; and they are as long as one CPU has not stopped |
| SlotRuns.TurnKeeps | src/os.c:53-187 | every turn of every thread keeps the CPUs and the loader in step with their devices, and once the last admission is over a queued process has a CPU that will look for it |
| SlotRuns.IsCpuRun | src/os.c:53-187 | a run of the simulator is one of the runs of CPUs and loader, so all that holds of these holds of it |
| SlotRuns.IsTimerRun | src/timer.c:21-103 | and it is one of the timer's runs |
| SlotRuns.SimulationFinishes | src/os.c:92-97 | when every CPU has stopped or finds nothing at the top of its loop, every admitted process has been freed after its last instruction, or was dropped; when every CPU has stopped, all programs have been admitted |
| SlotRuns.AdmissionsAreOnTime | src/os.c:157-187 | program i is admitted in the slot of its start time or in the one after its predecessor's, whichever is later |
| SlotBound.CpuKeepsHope | src/os.c:60-118 | a section that makes no progress leaves some CPU with a process ahead of it in the same slot |
| SlotBound.NewSlotHasProspect | src/os.c:60-118 | after the last admission every slot begins with such a CPU while a process is queued or held |
| SlotBound.WorkEndsInTime | src/os.c:60-118 | after the slot of the last admission processes are queued or held for at most a slot per instruction and one per process, and one more per empty program |
| SlotBound.AllDoneInTime | src/os.c:53-187 | with no start time after s, from slot s + (number of programs) + work on every program has been admitted, and has been freed after its last instruction, or was dropped |
| SlotEnds.SectionEndsTurn | src/os.c:60-118 | a section ends the turn of its CPU exactly if it ran an instruction, found no process to go on with, or stopped |
| SlotEnds.OneInstructionPerSlot | src/os.c:114-118 | a CPU that has run an instruction does nothing more in that slot |
| SlotEnds.FindsNobodyAndLeaves | src/os.c:74-97 | a CPU that comes back from a release after `done` and finds all queues empty is on its way out |
| SlotEnds.StopsForGood | src/os.c:92-97 | it is stopped after its next section and detached after the end of that turn, whatever the other threads do in between |
| SlotEnds.LoaderLeaves | src/os.c:186-188 | the loader's turn after the last admission sets `done`, and it then detaches |
| SlotEnds.SimulationCanEnd | src/os.c:119-120 | when every CPU has stopped, everybody can detach and the timer comes to its end |
| SlotEnds.StoppedRestsOnlyAtEnd | src/timer.c:59-62 | and the simulator cannot come to rest before it has |
| ProgramMemory.CallsInOrder | src/cpu.c:61-70 | in any run the memory calls of a process come in the order of its program |
| ProgramMemory.LoadSeesOwnLastStore | src/cpu.c:61-130 | on any CPUs, under any schedule and beside any other processes, a successful load returns the byte the same program last stored at that address in program order |
| ProgramMemory.EveryProcessHasItsMm | src/os.c:174-181 | after any run from start-up there is one mm for every process admitted so far |
| Simulators.Simulator.constructor | src/os.c:261-300 | no process loaded, every CPU idle |
| Simulators.Simulator.Run | src/cpu.c:61-70 | the counter moves by one inside the program and not beyond its end |
| Simulators.Simulator.CpuSection | src/os.c:53-121 | each section of the loop computes the value model's section on the shared variables, which moves the CPU as `LookingMoves` and `HoldingMoves` say |
| Simulators.Simulator.LoaderSection | src/os.c:155-185 | computes the value model's round, which is as `LoaderMoves` says |
| SlotTimer.StartInv | src/timer.c:91-134 | attached devices and the new timer are in order |
| SlotTimer.StepKeepsInv | src/timer.c:21-103 | every section of the timer and the devices, spurious wake-ups included, keeps the invariant |
| SlotTimer.TimeWaitsForAll | src/timer.c:28-49 | in every reachable state time moves by one, and only when every device has arrived or finished |
| SlotTimer.Lockstep | src/timer.c:67-84 | in every reachable state a working device has completed as many slots as have passed, and unfinished devices are at most one slot apart |
| SlotTimer.TimeStandsStillForWorker | src/timer.c:86-89 | between two calls of a device `current_time` is constant, whatever the other threads do |
| SlotTimer.ReleaseNeverRacesArrive | src/timer.c:52-58 | in no reachable state is `done` about to be written under its two locks at once |
| SlotTimer.NoLostWakeup | src/timer.c:33-39 | in every reachable state a timer asleep on a device means that it has neither arrived nor finished; a device asleep has its flag up, the timer still runs, and it is a slot behind exactly while its release is still to come |
| SlotTimer.EndsOnlyWhenAllFinished | src/timer.c:59-62 | in every reachable state where the timer has ended every device has finished |
| SlotTimer.FinishedForGood | src/timer.c:97-103 | a device that has finished never holds up the timer again, over any run |
| SlotTimer.NoDeadlock | src/timer.c:21-84 | in a reachable state where nothing can run without a call of a device, the timer has ended or sleeps on a device that is working, and whoever sleeps has arrived |
| SlotTimer.InternalRunsAreBounded | src/timer.c:21-84 | between calls of the devices only boundedly many sections can run |
| SlotTimer.SlotCompletes | src/timer.c:28-58 | once every unfinished device has called `next_slot`, time advances before the threads come to rest |
| SlotTimer.Timer.constructor | src/timer.c:105-134 | the devices as attached, time 0, every invariant of the timer |
| SlotTimer.Timer.TimerSection | src/timer.c:21-65 | a section of the loop keeps the invariant, counts a slot only when everybody has arrived, wakes only devices whose slot is over, and ends only when everybody has finished |
| SlotTimer.Timer.RunTimer | src/timer.c:21-65 | the loop comes to rest, by a run of its own sections: ended with every device finished, or asleep on one that is missing; it has counted a slot if none was missing, and has done no more to a device than clear its flag and wake it |
| SlotTimer.Timer.Announce | src/timer.c:69-73 | keeps the invariant; the timer is not left sleeping on the device, which counts as arrived for the slot that is running |
| SlotTimer.Timer.AwaitSlot | src/timer.c:76-83 | keeps the invariant; a device passes only when the slot it announced is over, having completed as many as have passed, and else sleeps with its flag up |
| SlotTimer.Timer.DetachEvent | src/timer.c:97-103 | keeps the invariant; neither now nor after any run does the timer sleep on the device |

## Left out

- PagingRuns.ReadReturnsLastWrite: covers runs in which no break passes 4 MiB; the code does not check this, and beyond it `PAGING_PGN` folds addresses together (`AddressSplit`) and mapping overwrites live entries (`GrowthPastTheBusOverwrites`).
- Kernels.Kernel.Alloc: likewise requires that the break stays within 4 MiB; beyond it addresses fold onto lower ones, and the page table itself is overrun once `Pgn(brk)` plus the pages to map exceeds 16384.
- SlotRuns.SimulationFinishes: requires at least one CPU; without one nobody is ever fetched.
- Kernels.Kernel.FreePcbMemph: does not keep the kernel's invariant, because the code leaves the page-table words as they are; the mm is dead afterwards.
- MemPhyDevice.MemPhy.constructor: requires two frames; with one the code leaves the end of the free list unset, with none the list itself.
- MemPhyDevice.MemPhy.Format: does not cover a device of exactly one frame, for the same reason.
- Each library call, and each section under one lock, is one atomic step; `__read` takes no lock where `__write` does, and that finer interleaving is not modelled.
- At most 2^13 RAM frames and 2^21 swap slots, the widths of the page-table fields; `FpnRoundTrip` and `SwapRoundTrip` say what happens beyond.
- Linked lists are sequences held in fields, head first; node allocation, `malloc` failure and pointer lifetimes are not modelled. A pcb in a queue is a value identified by its pid, which the loader makes unique; the clamp of an invalid `prio` is computed at each use.
- Widths of counters such as `_time` and `time_left` are unbounded.
- `CpuRuns` and what builds on it let the loader wait for any time; `SlotRuns` has its start times.
- That every CPU stops: an idle CPU never tests `done` at the top of its loop.
- The raw operations of `src/sys_mem.c` write page-table words and RAM directly, around the invariants; they and the rest of syscall dispatch are not steps of the model.
- Sequential-access devices, several areas per process, the unused swap devices, and the scheduler without MLQ are not reached in this build.
- Kernel cache pools: creation does nothing and allocation is `__alloc` of 4096 bytes.
- `init_pte`, `vmap_pgd_memset`, `__mm_swap_page` and the multi-level walk: unused, or indices that are computed and then ignored.
- `src/mm.c`, `src/mem.c`, `src/paging.c`, the loader's parsing, all printing and `gantt.py`: obsolete code and input/output.
