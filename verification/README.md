# Verification of the simulator's stateful parts

A Dafny model of the parts of this ChampSim-derived cycle simulator whose state is hard to keep right,
with proofs about every input, every run or every reachable state. Check it with
`dafny verify dfyconfig.toml`.

Each part is given twice where the program updates state in place: as functions from state to state, about
which the properties are proved, and as classes and methods with the program's own loops, arrays and
fields, which are proved equal to those functions.

| part | files | what it models |
|---|---|---|
| Belady's choice | `OptGen.dfy` | the circular occupancy vector that decides whether an optimal cache would have kept a line |
| DRAM controller | `Dram.dfy`, `DramSafety.dfy`, `DramRuns.dfy`, `DramDrain.dfy`, `DramArrivals.dfy`, `DramTiming.dfy`, `DramController.dfy` | one channel: two queues, eight banks with open rows, a shared bus, a read/write mode |
| Replacement and the plain branch target buffer | `Lru.dfy`, `BaselineBtb.dfy` | LRU sets, and the two-level table built on them |
| Compressed branch target buffer | `Bits.dfy`, `MicroCompression.dfy`, `MicroBtb.dfy` | tag hashing, target compression and the skewed or set-associative table |
| Branch predictors | `HashedPerceptron.dfy`, `Perceptron.dfy` | history registers, indices, sums and training |
| Page table walker | `PageAllocator.dfy`, `PageTree.dfy`, `PageWalker.dfy`, `PageTableWalker.dfy` | physical page allocation, page faults on the five-level tree, the MMU caches, one walk at a time |
| Out-of-order core | `Registers.dfy`, `RegisterProgress.dfy`, `RegisterRing.dfy`, `Scheduler.dfy`, `LoadStore.dfy`, `MemoryProgress.dfy`, `LoadQueues.dfy`, `StoreOrder.dfy`, `PipelineOrder.dfy` | register dependencies and wake-up, store-to-load forwarding, program order through the buffers |
| The core as a whole | `Occupancy.dfy`, `WholeCore.dfy`, `CoreProgress.dfy`, `StuckRun.dfy` | registers and memory operations of the same instructions, with the sizes of the queues: when the core makes progress and when it is stuck |

`Common.dfy`, `CoreConfig.dfy` and `Rings.dfy` hold what several modules share.

## What is assumed

- One core, one clock (`NUM_CPUS` is 1), one DRAM channel and rank, as configured. Cycle counters do not wrap.
- Random draws, trace contents, cache answers and the passing of time are parameters of the steps, so every
  result is for all of them. The page allocator's generator draws nonzero 36-bit pages and keeps drawing
  until it has produced more different pages than memory holds.
- A swap rewrites the page table but not the page table tree. So in a run in which a page fault finds memory exhausted two
  pages of the tree become the same, and only in such a run (`PageWalker.PagesApartExactly`); what is said of walks,
  MMU caches and replies holds in every run. Walked addresses are nonzero and below 2^57, and a request has one
  virtual address.
- An instruction has at most one memory destination in `LoadStore`, and in what is built on it, as the trace converter
  emits (`MBTB-ICCD-master/scripts/cvp_champsim_trace_converter.cpp:668-671`), and at most two in `PipelineOrder`, as the
  trace format allows.
- The 64-bit masks that the branch target buffers build from `1L << 64` are taken as the identity they are meant to be.

## Where the code differs from what one would expect

- The caller of the occupancy vector lets through reuse distances equal to the vector length. For these the circular
  walk is empty, so they always count as hits and the counter can exceed the optimum (`OptGen.HitsCount` says by how much).
- A request from the prefetch queue that starts from the level 5 cache takes the offset of its first address from an
  entry of the read queue, which is empty then, so the offset is 0. The address is right exactly when bits 39 to 47 of
  the request are zero (`PageWalker.StartsWhereTheWalkIs`); `PageWalker.PrefetchGoesWrong` is a run where it is not.
- The DRAM controller drops a read or write that finds its queue full: `DramArrivals.ReadLostExactly` and
  `WriteLostExactly` say when, and `BurstLosesRead` is a run. The last-level cache checks the occupancy before it calls
  (`MBTB-ICCD-master/src/cache.cc:205-206`, `718-719`, `1546-1547`, `2351-2352`), and these lemmas show that this guard
  is enough after the warm-up. A write to an address that is already queued leaves the old data there, so a forwarded
  read is answered with the data of the first write (`ForwardsFirst`, with the run `ForwardsOldData`).
- The register scan skips completed instructions, so a source can wait for an older writer than the one that produces
  its value: `Registers.LinksToOlder` says exactly when, and `WaitsForOlder` is a run. It can only wait too long:
  `Registers.DataflowRespected` holds regardless.
- Younger loads can fill the load queue while the oldest load still waits for its address. If they all wait for stores
  that have to wait for that load, through registers, program order or a full store queue, the core is stuck for good.
  `CoreProgress.DoomedExactly` says exactly when the oldest instruction can never retire, `CompleteRoot` and `JammedLoad`
  what the others wait for, and `StuckRun.GetsStuck` is a run with an empty store queue.

## Model

| member | source | states |
|---|---|---|
| `OptGen.OPTgen.constructor` | MBTB-ICCD-master/inc/optgen.h:58-64 | A new vector has all counters zero and every slot empty |
| `OptGen.OPTgen.AddAccess` | MBTB-ICCD-master/inc/optgen.h:66-69 | An access is counted and frees the current slot; nothing else changes |
| `OptGen.OPTgen.AddPrefetch` | MBTB-ICCD-master/inc/optgen.h:71 | A prefetch frees the current slot without being counted |
| `OptGen.OPTgen.ShouldCache` | MBTB-ICCD-master/inc/optgen.h:73-102 | The answer is yes exactly when every slot of the circular walk from the last use has room; then, and only then, each of those slots gains one live line and a hit is counted |
| `OptGen.OPTgen.GetNumOptHits` | MBTB-ICCD-master/inc/optgen.h:104-109 | The reported hits are the hit counter of the state |
| `OptGen.Replay` | MBTB-ICCD-master/replacement/hawkeye.llc_repl:184-230 | The caller's protocol, one query and one access per time step, leaves the object in the state of the specification run |
| `OptGen.LiveBounded` | MBTB-ICCD-master/inc/optgen.h:73-94 | No slot ever counts more live lines than the cache has, so the counts cannot overflow |
| `OptGen.RunCounts` | MBTB-ICCD-master/inc/optgen.h:66-102 | Every time step counts as one access, and every reuse as either a hit or a rejection |
| `OptGen.RunTracks` | MBTB-ICCD-master/inc/optgen.h:66-102 | After t steps the ring holds, for each of the last n times, the load of the greedy choice over unbounded time |
| `OptGen.GreedyOptimal` | MBTB-ICCD-master/inc/optgen.h:73-102 | The greedy choice by end time is a largest set of reuse intervals with at most the cache size live at any time (exchange argument) |
| `OptGen.HitsOptimal` | MBTB-ICCD-master/inc/optgen.h:66-109 | When all reuse distances are below the vector length, the hit counter is the optimum |
| `OptGen.HitsCount` | MBTB-ICCD-master/inc/optgen.h:66-109 | For every run the caller's guard admits, the counter is the optimum over reuses closer than the vector length plus the number of reuses at exactly that length, and it never undercounts |
| `OptGen.FullTurnAnswer` | MBTB-ICCD-master/replacement/hawkeye.llc_repl:202-209 | A reuse at distance exactly the vector length, which the caller's guard lets through, is always counted as a hit; the answer agrees with the kept intervals exactly when every slot has room |
| `OptGen.OvercountsAtFullTurn` | MBTB-ICCD-master/replacement/hawkeye.llc_repl:202-209 | A concrete trace on which such reuses make the counter exceed the optimum |
| `Dram.EarliestIsLeast` | MBTB-ICCD-master/src/dram_controller.cc:642-709 | The scans for the next packet return a wanted packet of least event cycle, the lowest-numbered on ties, whenever there is one |
| `DramSafety.StartInv` | MBTB-ICCD-master/inc/dram_controller.h:46-76 | The initial controller satisfies the global invariant |
| `DramSafety.ResetKeeps` | MBTB-ICCD-master/src/dram_controller.cc:6-63 | After a reset nothing is scheduled, no bank works, the counters are zero and each formerly scheduled packet is schedulable again from the current cycle |
| `DramSafety.SwitchKeeps` | MBTB-ICCD-master/src/dram_controller.cc:67-90 | A mode switch keeps the invariant and leads to the mode the watermarks ask for |
| `DramSafety.OperateKeeps` | MBTB-ICCD-master/src/dram_controller.cc:65-123 | A cycle keeps the invariant that ties queue slots, banks, counters and cached minima together |
| `DramSafety.AddKeeps` | MBTB-ICCD-master/src/dram_controller.cc:462-636 | Arrivals of reads and writes keep the invariant |
| `DramRuns.ReachableInv` | MBTB-ICCD-master/src/dram_controller.cc:65-636 | The invariant holds after every sequence of arrivals and cycles |
| `DramRuns.OneToOne` | MBTB-ICCD-master/src/dram_controller.cc:250-277 | In every reachable state scheduled entries and working banks correspond one to one through the request index, only the active queue has scheduled entries, and the counters count them |
| `DramRuns.ChecksHold` | MBTB-ICCD-master/src/dram_controller.cc:299-324 | In every reachable state the checks of processing, of queue removal and of the reset pass in the next cycle |
| `DramRuns.PickOldest` | MBTB-ICCD-master/src/dram_controller.cc:125-228 | The scheduler picks the oldest eligible open-row hit if there is one, else the oldest eligible request, else nothing, ties going to the lowest index |
| `DramRuns.ScanExact` | MBTB-ICCD-master/src/dram_controller.cc:642-709 | A scan finds nothing exactly when no packet is wanted, and its result is the unique earliest one |
| `DramRuns.ReadsConserved` | MBTB-ICCD-master/src/dram_controller.cc:326-388 | Over every run the reads taken into the queue are exactly those returned over the bus and those still waiting, each as often as it was taken in |
| `DramRuns.BusSpacing` | MBTB-ICCD-master/src/dram_controller.cc:76-90 | Consecutive transfers start at least a bus time apart, plus one turn-around for every mode switch in between |
| `DramDrain.CyclePace` | MBTB-ICCD-master/src/dram_controller.cc:65-123 | A cycle moves at most one request, never adds a mode switch to those still to come, and never reserves the bus further ahead |
| `DramDrain.MustSchedule` | MBTB-ICCD-master/src/dram_controller.cc:125-228 | With nothing in service and all waiting requests due, the scheduler puts one in service |
| `DramDrain.WaitFalls` | MBTB-ICCD-master/src/dram_controller.cc:65-123 | While nothing moves and the mode stays, the wait for the next transfer shortens every cycle |
| `DramDrain.Drains` | MBTB-ICCD-master/src/dram_controller.cc:65-123 | Without arrivals both queues are empty after an explicitly computed number of cycles, resets and mode switches included |
| `DramDrain.ReachableDrains` | MBTB-ICCD-master/src/dram_controller.cc:65-123 | The same from every reachable state |
| `DramArrivals.ReadLostExactly` | MBTB-ICCD-master/src/dram_controller.cc:462-567 | A read is neither answered nor waiting afterwards exactly when the warm-up is over, neither queue has its address and the read queue is full |
| `DramArrivals.WriteLostExactly` | MBTB-ICCD-master/src/dram_controller.cc:569-636 | A write is lost exactly when its queue does not have its address and either is full or the warm-up is not over |
| `DramArrivals.BurstLosesRead` | MBTB-ICCD-master/src/dram_controller.cc:526-566 | A concrete run: after as many reads of different addresses as the queue has slots, one more is lost |
| `DramArrivals.SlotWritten` | MBTB-ICCD-master/src/dram_controller.cc:569-636 | Over every run, what a slot of the write queue holds is the first write of its address since the slot was filled |
| `DramArrivals.ForwardsFirst` | MBTB-ICCD-master/src/dram_controller.cc:473-504 | Over every run, a read whose address is in the write queue is answered at once, with the data of the first write of the address since that came into the queue |
| `DramArrivals.ForwardsOldData` | MBTB-ICCD-master/src/dram_controller.cc:574-585 | A concrete run: after two writes to an address a read is answered with the data of the first |
| `DramArrivals.WriteTakesEffect` | MBTB-ICCD-master/src/dram_controller.cc:569-636 | A write decides what later reads are forwarded exactly when the queue did not have its address and takes it, or had it with the same data |
| `DramTiming.DecodeRoundTrip` | MBTB-ICCD-master/src/dram_controller.cc:746-790 | Bank and row are read from an address as they were put into it |
| `DramTiming.ServiceTimes` | MBTB-ICCD-master/src/dram_controller.cc:230-294 | The request taken into service and its bank become due after tCAS exactly when the bank had its row open, and after tRP + tRCD + tCAS otherwise; that row is open afterwards |
| `DramTiming.ServiceAlone` | MBTB-ICCD-master/src/dram_controller.cc:230-294 | No other request, no other bank, not the other queue and not the bus change |
| `DramTiming.ActsWhenDue` | MBTB-ICCD-master/src/dram_controller.cc:92-123 | Scheduling happens only when some waiting request is due, and service only of the oldest in service, when that is due |
| `DramTiming.ProcessTimes` | MBTB-ICCD-master/src/dram_controller.cc:299-460 | What happens to the request at the head of service while its bank works, while the bus is busy, and when both are free: the bus is reserved for one transfer, the read comes back for when that ends, and the row stays open |
| `DramTiming.ResetRows` | MBTB-ICCD-master/src/dram_controller.cc:6-63 | A reset leaves banks that did not work as they are, and frees the others, with the row of their request open exactly if the access was to end within tCAS from now, and closed otherwise |
| `DramTiming.ModeRule` | MBTB-ICCD-master/src/dram_controller.cc:67-90 | Writes go on until there are none, or fewer than 48 while a read waits; reads until 56 writes wait, or some and no read |
| `DramTiming.MergedIndex` | MBTB-ICCD-master/src/dram_controller.cc:462-636 | Which arrivals merge with a waiting request of their address, whose index they get back |
| `DramController.PacketQueue.UpdateScheduleCycle` | MBTB-ICCD-master/src/dram_controller.cc:642-679 | The loop computes the specified earliest unscheduled packet and changes nothing else |
| `DramController.PacketQueue.UpdateProcessCycle` | MBTB-ICCD-master/src/dram_controller.cc:681-709 | The loop computes the specified earliest scheduled packet and changes nothing else |
| `DramController.PacketQueue.CheckDramQueue` | MBTB-ICCD-master/src/dram_controller.cc:711-744 | Returns the first slot with the address, or -1 |
| `DramController.PacketQueue.RemoveQueue` | MBTB-ICCD-master/src/block.cc:136-174 | The slot is empty afterwards and the occupancy one less |
| `DramController.MemoryController.constructor` | MBTB-ICCD-master/inc/dram_controller.h:46-76 | A new controller is in the initial state of the specification |
| `DramController.MemoryController.Schedule` | MBTB-ICCD-master/src/dram_controller.cc:125-297 | The two searching loops and the bank, counter and queue updates equal the specified step, whose choice is `DramRuns.PickOldest` and whose times are `DramTiming.ServiceTimes` |
| `DramController.MemoryController.Process` | MBTB-ICCD-master/src/dram_controller.cc:299-460 | The update in place equals the specified step, with the bank check as an assertion |
| `DramController.MemoryController.ResetRemainRequests` | MBTB-ICCD-master/src/dram_controller.cc:6-63 | The loop over the entries equals the specified reset, the unsigned subtraction never wraps, and the final counter check holds |
| `DramController.MemoryController.Operate` | MBTB-ICCD-master/src/dram_controller.cc:65-123 | A cycle in place equals the specified cycle, returned reads included, and keeps the invariant |
| `DramController.MemoryController.AddRq` | MBTB-ICCD-master/src/dram_controller.cc:462-567 | A read is answered, forwarded, merged, inserted or dropped as specified |
| `DramController.MemoryController.AddWq` | MBTB-ICCD-master/src/dram_controller.cc:569-636 | A write is dropped, merged or inserted as specified |
| `Lru.CacheSet.constructor` | MBTB-ICCD-master/inc/cache.h:171-173 | A new set has no valid line and recency equal to the way number |
| `Lru.CacheSet.LruVictim` | MBTB-ICCD-master/replacement/base_replacement.cc:40-88 | The victim search returns the first invalid way, else the least recently used one, and never fails while recencies are ordered |
| `Lru.CacheSet.LruUpdate` | MBTB-ICCD-master/replacement/base_replacement.cc:90-98 | The loop in place ages exactly the lines more recent than the touched one, and makes that one most recent |
| `Lru.CacheSet.FillBlock` | MBTB-ICCD-master/src/baseline_btb.cc:109-123 | A fill overwrites the line of the tag or replaces the victim, and promotes it |
| `Lru.VictimFound` | MBTB-ICCD-master/replacement/base_replacement.cc:40-88 | With ordered recencies the victim is the first free way, or the last of the recency order |
| `Lru.PromoteOrdered` | MBTB-ICCD-master/replacement/base_replacement.cc:90-98 | Promotion keeps the recencies a permutation, also when it takes a new way into use |
| `Lru.RunRefines` | MBTB-ICCD-master/replacement/base_replacement.cc:40-98 | After every history of fills and touches the lines represent the recency list of distinct tags |
| `Lru.RunIsRecent` | MBTB-ICCD-master/replacement/base_replacement.cc:40-98 | A set of w ways holds exactly the w most recently touched distinct tags, in order |
| `Lru.StackDistance` | MBTB-ICCD-master/replacement/base_replacement.cc:40-98 | A tag stands in the recency list at the number of other tags touched since it was |
| `Lru.HitsExactly` | MBTB-ICCD-master/replacement/base_replacement.cc:40-98 | A lookup hits exactly when fewer other tags than ways were touched since the tag was, and returns what was stored last |
| `Lru.Inclusion` | MBTB-ICCD-master/replacement/base_replacement.cc:40-98 | Whatever hits in a set of w ways hits in a set of w + 1 ways after the same fills and touches, with the same data |
| `BaselineBtb.KeyIsSetAndTag` | MBTB-ICCD-master/src/baseline_btb.cc:28-92 | Set and tag together determine the key and conversely, also for the hashed set of the second level |
| `BaselineBtb.TagHasHash` | MBTB-ICCD-master/src/baseline_btb.cc:84-90 | The hashed second-level set is a function of the bits the tag keeps |
| `BaselineBtb.SetBit` | MBTB-ICCD-master/src/baseline_btb.cc:80-92 | Each bit of the second level's set is made of two bits of the address, fourteen apart |
| `BaselineBtb.SetsSound` | MBTB-ICCD-master/src/baseline_btb.cc:52-78 | In every reachable table no set holds a tag twice and every victim search succeeds |
| `BaselineBtb.AgreesWithMap` | MBTB-ICCD-master/src/baseline_btb.cc:94-142 | A hit returns the last target filled for the key, and a lookup hits exactly when the key was filled and fewer other tags of its set than ways were touched since |
| `BaselineBtb.FillThenHit` | MBTB-ICCD-master/src/baseline_btb.cc:109-142 | Right after a fill the address hits, with its target |
| `BaselineBtb.BtbTable.GetWay` | MBTB-ICCD-master/src/baseline_btb.cc:94-107 | Returns the way of the address's tag in its set, or the number of ways |
| `BaselineBtb.BtbTable.Promote` | MBTB-ICCD-master/src/baseline_btb.cc:68-78 | A hit refreshes its line and is recorded in the history |
| `BaselineBtb.BtbTable.Fill` | MBTB-ICCD-master/src/baseline_btb.cc:109-142 | One level's fill in place is the fill of the history |
| `BaselineBtb.BtbTable.Target` | MBTB-ICCD-master/src/baseline_btb.cc:94-107 | A lookup returns the last target filled for the key when it hits |
| `BaselineBtb.Btb.FillBtb` | MBTB-ICCD-master/src/baseline_btb.cc:109-142 | A fill goes to the first level, the second or both, and to no other |
| `MicroCompression.GetVariant` | MBTB-ICCD-master/src/mbtb.cc:262-291 | The bit-counting loop returns the specified variant |
| `MicroCompression.GetVariantSize` | MBTB-ICCD-master/src/mbtb.cc:325-330 | The loop computes two to the power of the variant |
| `MicroCompression.VariantIsTightest` | MBTB-ICCD-master/src/mbtb.cc:262-291 | The variant is the largest allowed one whose signed field holds the distance |
| `MicroCompression.LosslessIffFits` | MBTB-ICCD-master/src/mbtb.cc:103-114 | Truncating the distance to a field and sign-extending it recovers the target exactly when the distance fits the signed field |
| `MicroCompression.CompressionLossless` | MBTB-ICCD-master/src/mbtb.cc:262-291 | Every branch put in a compressed variant by its distance is recovered from a 16, 8 or 4 bit field |
| `MicroCompression.SameBudget` | MBTB-ICCD-master/src/mbtb.cc:49-70 | All compressed variants spend the same 88 bits on their entries |
| `MicroCompression.GetSubtag` | MBTB-ICCD-master/src/mbtb.cc:49-70 | The folding loop computes the specified tag hash of a variant |
| `MicroCompression.SubtagFits` | MBTB-ICCD-master/src/mbtb.cc:49-70 | Every tag hash fits the width accounted for it |
| `MicroCompression.SubtagBit` | MBTB-ICCD-master/src/mbtb.cc:49-70 | Which bits of the address make each bit of the tag hash, for every variant |
| `MicroCompression.GetSkewedSet` | MBTB-ICCD-master/src/mbtb.cc:35-45 | The loop fills in the specified set index of every way |
| `MicroCompression.SkewSeparates` | MBTB-ICCD-master/src/mbtb.cc:35-45 | Branches that differ only in the low index bits never share a block in any way |
| `MicroCompression.SkewBit` | MBTB-ICCD-master/src/mbtb.cc:35-45 | Each bit of a way's set index is made of one upper index bit and of the lower one that the way's rotation brings there |
| `MicroBtb.FillWayFound` | MBTB-ICCD-master/src/mbtb.cc:116-164 | A way to fill is found from every reachable state |
| `MicroBtb.LocBit` | MBTB-ICCD-master/src/mbtb.cc:35-45 | Which bits of the address make each bit of the set index, skewed or not |
| `MicroBtb.VariantOf` | MBTB-ICCD-master/src/mbtb.cc:352-362 | A branch gets the most compressed variant whose signed field holds its distance, a return the most compressed of all |
| `MicroBtb.FillsHit` | MBTB-ICCD-master/src/mbtb.cc:347-377 | A fill goes to the first way that has the branch |
| `MicroBtb.FillsRoom` | MBTB-ICCD-master/src/mbtb.cc:293-323 | Else to the first way with room for its variant |
| `MicroBtb.FillsVictim` | MBTB-ICCD-master/src/mbtb.cc:116-164 | Else to the first free way, else to the least recently used or, skewed, the drawn one |
| `MicroBtb.UseIsRecent` | MBTB-ICCD-master/src/mbtb.cc:166-187 | A use makes its way the most recent of its row; the others age, or skewed keep their age |
| `MicroBtb.AddedKeeps` | MBTB-ICCD-master/src/mbtb.cc:385-411 | Adding to a block of the same compressed variant keeps every other entry while there is room, and else all but the one of the smallest tag, even if the branch was in the block already |
| `MicroBtb.AddedAlone` | MBTB-ICCD-master/src/mbtb.cc:411-433 | Adding to a block of another variant, or uncompressed, leaves the new entry alone |
| `MicroBtb.FillKeeps` | MBTB-ICCD-master/src/mbtb.cc:332-434 | A fill keeps: between one and 2^variant entries per valid block, each under its own hash at a place where its branch is looked up, decoding to a target once filled for it, with a distance that fits the field unless it is a return |
| `MicroBtb.ReachableInv` | MBTB-ICCD-master/src/mbtb.cc:166-434 | That invariant holds after every history of fills and hits, in skewed and set-associative layouts and with two, three or four variants |
| `MicroBtb.RoundTrip` | MBTB-ICCD-master/src/mbtb.cc:332-434 | Right after a fill the lookup finds the branch in the way filled and predicts its target |
| `MicroBtb.FillThenLookup` | MBTB-ICCD-master/src/mbtb.cc:332-434 | The same after every history |
| `MicroBtb.FillKeepsOthers` | MBTB-ICCD-master/src/mbtb.cc:385-411 | A branch found in a block that a fill of its variant has room in is found there again, with the same entry |
| `MicroBtb.HitIsSound` | MBTB-ICCD-master/src/mbtb.cc:103-114 | A lookup that finds an entry of the branch itself predicts a target once filled for that branch |
| `MicroBtb.HitIsLastInto` | MBTB-ICCD-master/src/mbtb.cc:103-114 | A lookup that finds an entry of the branch itself predicts the target of the last fill of that branch to the way found; so it predicts the last target filled exactly when the two fills have the same target |
| `MicroBtb.Mbtb.Locations` | MBTB-ICCD-master/src/mbtb.cc:35-45 | The set index of every way, skewed or the same for all |
| `MicroBtb.Mbtb.GetWay` | MBTB-ICCD-master/src/mbtb.cc:189-260 | The first way whose block has an entry for the address |
| `MicroBtb.Mbtb.FindVictim` | MBTB-ICCD-master/src/mbtb.cc:116-164 | A free way, else the least recently used or, skewed, the drawn one |
| `MicroBtb.Mbtb.FindLocation` | MBTB-ICCD-master/src/mbtb.cc:293-323 | A block of the variant with room, else a victim |
| `MicroBtb.Mbtb.UpdateReplacementState` | MBTB-ICCD-master/src/mbtb.cc:166-187 | Recency of the row after a use of the way, for either layout |
| `MicroBtb.Mbtb.AddEntry` | MBTB-ICCD-master/src/mbtb.cc:385-433 | The block after adding a branch, of which `MicroBtb.AddedKeeps` and `MicroBtb.AddedAlone` say what stays |
| `MicroBtb.Mbtb.FillBtb` | MBTB-ICCD-master/src/mbtb.cc:332-434 | The fill in place is the fill of the history |
| `MicroBtb.Mbtb.Lookup` | MBTB-ICCD-master/src/mbtb.cc:103-114 | A lookup returns the entry found and refreshes its way |
| `HashedPerceptron.WordBit` | MBTB-ICCD-master/branch/hashed_perceptron.bpred:187-203 | Bit k of history word i is the outcome 12 i + k branches ago |
| `HashedPerceptron.ShiftWord` | MBTB-ICCD-master/branch/hashed_perceptron.bpred:187-203 | Shifting one word makes it the word of the longer history and hands the right bit on |
| `HashedPerceptron.IndexDependsOn` | MBTB-ICCD-master/branch/hashed_perceptron.bpred:131-168 | A table index depends only on the last outcomes of the table's length and the low twelve address bits |
| `HashedPerceptron.IndexBit` | MBTB-ICCD-master/branch/hashed_perceptron.bpred:131-168 | Bit k of an index is set exactly when of that address bit and the outcomes k, k + 12, k + 24, .. branches ago, within the table's history, an odd number is set |
| `HashedPerceptron.TrainingMovesTowards` | MBTB-ICCD-master/branch/hashed_perceptron.bpred:209-228 | Training moves the sum towards the outcome by exactly the number of unsaturated weights |
| `HashedPerceptron.SumBounds` | MBTB-ICCD-master/branch/hashed_perceptron.bpred:209-228 | The sum stays within what the selected 8-bit weights can reach |
| `HashedPerceptron.ThetaStaysNatural` | MBTB-ICCD-master/branch/hashed_perceptron.bpred:230-246 | The threshold never becomes negative and its counter stays within the adaptation speed |
| `HashedPerceptron.ThetaLedger` | MBTB-ICCD-master/branch/hashed_perceptron.bpred:230-246 | Threshold and counter together count mispredictions and, against them, right predictions trained for a small sum |
| `HashedPerceptron.Predictor.FoldHistory` | MBTB-ICCD-master/branch/hashed_perceptron.bpred:137-160 | The folding loop computes the specified xor of whole words and the partial last word |
| `HashedPerceptron.Predictor.PredictBranch` | MBTB-ICCD-master/branch/hashed_perceptron.bpred:123-177 | Every index is the specified one for the whole history, the sum is that of the selected weights, and the prediction is its sign |
| `HashedPerceptron.Predictor.Shift` | MBTB-ICCD-master/branch/hashed_perceptron.bpred:187-203 | The twenty words shift as one register |
| `HashedPerceptron.Predictor.Train` | MBTB-ICCD-master/branch/hashed_perceptron.bpred:209-228 | Exactly the selected weights move one step towards the outcome, saturating |
| `HashedPerceptron.Predictor.LastBranchResult` | MBTB-ICCD-master/branch/hashed_perceptron.bpred:179-247 | History, weights, threshold and counter after an outcome; training happens exactly on a misprediction or a weak sum |
| `Perceptron.TrainingMovesTowards` | MBTB-ICCD-master/branch/perceptron.bpred:265-309 | Training moves the output for the recorded history towards the outcome by exactly the number of unsaturated weights |
| `Perceptron.OutputBounds` | MBTB-ICCD-master/branch/perceptron.bpred:186-209 | Outputs stay within what 25 weights can reach |
| `Perceptron.MispredictionTrains` | MBTB-ICCD-master/branch/perceptron.bpred:246-260 | A misprediction is never exempt from training |
| `Perceptron.SkipsExactly` | MBTB-ICCD-master/branch/perceptron.bpred:246-260 | Training is left out exactly for a right prediction with an output further than 60 from zero |
| `Perceptron.RegisterBit` | MBTB-ICCD-master/branch/perceptron.bpred:237-238 | Bit i of a history register is the outcome i branches ago, for the last 64 branches |
| `Perceptron.OutputIsVote` | MBTB-ICCD-master/branch/perceptron.bpred:190-215 | The output for the register is the bias and the weights, counted for or against by the last outcomes |
| `Perceptron.TrainedByOutcomes` | MBTB-ICCD-master/branch/perceptron.bpred:265-309 | A weight is trained up exactly when its outcome agrees with the new one |
| `Perceptron.Predictor.DotProduct` | MBTB-ICCD-master/branch/perceptron.bpred:190-215 | The masking loop computes bias plus signed weights of the history |
| `Perceptron.Predictor.PredictBranch` | MBTB-ICCD-master/branch/perceptron.bpred:170-226 | The prediction is the sign of the vote of the last real outcomes, which the update will train on |
| `Perceptron.Predictor.Train` | MBTB-ICCD-master/branch/perceptron.bpred:265-309 | Every weight of the one perceptron moves one step in its direction, saturating; no other perceptron changes |
| `Perceptron.Predictor.LastBranchResult` | MBTB-ICCD-master/branch/perceptron.bpred:230-309 | After every predict and update pair the speculative history equals the real one; training uses the history of the prediction and is skipped only for confident right predictions |
| `PageAllocator.FreeFound` | MBTB-ICCD-master/src/page_table_walker.cc:603-629 | While memory is not full, a generator that keeps drawing reaches a free page, so the retry loop ends |
| `PageAllocator.NewPageFree` | MBTB-ICCD-master/src/page_table_walker.cc:587-629 | A new page is free, never all ones, and small enough for every shift made of it |
| `PageAllocator.AllocationRule` | MBTB-ICCD-master/src/page_table_walker.cc:588-640 | Inside a run the next page is given if it is free; else the first free draw, which begins a run of two to the power drawn |
| `PageAllocator.TranslateKeeps` | MBTB-ICCD-master/src/page_table_walker.cc:516-649 | Through fresh allocation and swap the page table and its inverse stay mutual inverses, the allocated count is the number of mapped pages and at most the memory size, and the run counter ends unwrapped |
| `PageAllocator.OthersKeepTheirs` | MBTB-ICCD-master/src/page_table_walker.cc:518-586 | Nobody else loses a translation while there is memory, and then only the lowest-numbered page, whose physical page the newcomer gets |
| `PageAllocator.ReachableInv` | MBTB-ICCD-master/src/page_table_walker.cc:484-676 | That invariant after every sequence of requests |
| `PageAllocator.Allocator.VaToPa` | MBTB-ICCD-master/src/page_table_walker.cc:484-676 | The physical address carries the mapped page and the offset; the tables change as specified; a swap is reported exactly when memory was full |
| `PageAllocator.Allocator.Evict` | MBTB-ICCD-master/src/page_table_walker.cc:518-586 | The swap in place equals the specified one |
| `PageAllocator.Allocator.PickPage` | MBTB-ICCD-master/src/page_table_walker.cc:587-629 | The retry loop returns the next adjacent page or the first free draw |
| `PageAllocator.Allocator.Allocate` | MBTB-ICCD-master/src/page_table_walker.cc:587-649 | The fresh allocation in place equals the specified one |
| `PageTree.IndexIsPath` | MBTB-ICCD-master/src/page_table_walker.cc:738-821 | Two addresses share a cache index of a level exactly when the walk leads them to the same page below it |
| `PageTree.OffsetIs` | MBTB-ICCD-master/src/page_table_walker.cc:795-821 | The offset at a level is nine bits of the address, from bit 12 on at level 1 |
| `PageTree.FaultServices` | MBTB-ICCD-master/src/page_table_walker.cc:443-482 | A fault serviced from any level, swaps or not, completes the walk, keeps everything else, and adds nothing off the path |
| `PageTree.FaultKeeps` | MBTB-ICCD-master/src/page_table_walker.cc:443-482 | While memory has a page for each one added, a fault keeps every page of the tree owned by its own virtual page, and all different |
| `PageTree.OtherTranslations` | MBTB-ICCD-master/src/page_table_walker.cc:443-482 | Other pages keep their translation or the absence of one |
| `PageTree.EntriesApart` | MBTB-ICCD-master/src/page_table_walker.cc:678-697 | Without swaps no two page table entries share a physical address, and none lies in another page of the tree |
| `PageTree.FaultDistinct` | MBTB-ICCD-master/src/page_table_walker.cc:443-482 | A page fault keeps the pages of the tree different exactly when memory has a page left for each one it adds |
| `PageTree.PageTables.MapTranslationPage` | MBTB-ICCD-master/src/page_table_walker.cc:678-687 | A table page gets the physical page of the next reserved virtual page |
| `PageTree.PageTables.MapDataPage` | MBTB-ICCD-master/src/page_table_walker.cc:689-697 | A data page gets the physical page of its own virtual page |
| `PageTree.PageTables.HandlePageFault` | MBTB-ICCD-master/src/page_table_walker.cc:443-482 | The level-by-level loop equals the specified fault, swaps included, and finds each entry vacant |
| `PageWalker.FillRowKeeps` | MBTB-ICCD-master/src/page_table_walker.cc:715-736 | Filling a row that does not have the tag keeps its lines right, its tags distinct and a victim available |
| `PageWalker.StartKeeps` | MBTB-ICCD-master/src/page_table_walker.cc:186-318 | A new request keeps the walker's invariant and asks for, or replies with, what the tree holds |
| `PageWalker.AdvanceKeeps` | MBTB-ICCD-master/src/page_table_walker.cc:10-184 | An answered request keeps it too: fault, completion, dropped prefetch or next level |
| `PageWalker.ReachableInv` | MBTB-ICCD-master/src/page_table_walker.cc:4-440 | The invariant over every run, with all asks and replies so far right for the current tree |
| `PageWalker.CachesAgree` | MBTB-ICCD-master/src/page_table_walker.cc:80-111 | After every run a valid line of the level k cache holds the base the walk yields below level k for every address with its index, and no row holds a tag twice |
| `PageWalker.StartsWhereTheWalkIs` | MBTB-ICCD-master/src/page_table_walker.cc:186-418 | After any hit the first address asked for is the entry the full walk reaches; for a request from the prefetch queue exactly when it does not start from the level 5 cache or bits 39 to 47 of its address are zero |
| `PageWalker.AsksAndRepliesRight` | MBTB-ICCD-master/src/page_table_walker.cc:112-176 | Every address ever asked for is the entry of the full walk, except exactly the first ones of requests from the prefetch queue that started from the level 5 cache with bits 39 to 47 not zero; and every reply is the translation in the tree |
| `PageWalker.AnswerLowers` | MBTB-ICCD-master/src/page_table_walker.cc:995-999 | An answer leaves the walk one level further down |
| `PageWalker.RepliesAfterAllLevels` | MBTB-ICCD-master/src/page_table_walker.cc:112-177 | Over every run, a walk that replies without a page fault has asked for exactly the levels from where it started down to the last, once each and in that order |
| `PageWalker.AsksNext` | MBTB-ICCD-master/src/page_table_walker.cc:155-177 | Until then a cycle without a fault asks for the level at which the walk stands as soon as there is room |
| `PageWalker.DropsExactly` | MBTB-ICCD-master/src/page_table_walker.cc:44-73 | A request is given up exactly when it is a prefetch for which a page is missing, and tree and caches stay |
| `PageWalker.ReplyTeaches` | MBTB-ICCD-master/src/page_table_walker.cc:80-111 | After a reply every cache that had missed hits the address, and the next request for the page starts at the last level |
| `PageWalker.FillRowRecent` | MBTB-ICCD-master/src/page_table_walker.cc:715-736 | Filling a row with a new tag keeps its most recent tags, as an LRU set does |
| `PageWalker.PrefetchGoesWrong` | MBTB-ICCD-master/src/page_table_walker.cc:360-365 | A concrete run of two requests in which a prefetch asks for the wrong entry |
| `PageWalker.PagesApart` | MBTB-ICCD-master/src/page_table_walker.cc:443-482 | After every run without a swap all table and data pages are different, and no two page table entries share an address |
| `PageWalker.TranslationsApart` | MBTB-ICCD-master/src/page_table_walker.cc:689-697 | After every run without a swap different data pages have different translations |
| `PageWalker.PagesApartExactly` | MBTB-ICCD-master/src/page_table_walker.cc:443-482 | Over all runs, the pages of the tree are all different exactly when no page fault found memory exhausted |
| `PageTableWalker.PageTableWalker.CheckCache` | MBTB-ICCD-master/src/page_table_walker.cc:762-792 | The loop over the ways finds the base cached for the index |
| `PageTableWalker.PageTableWalker.FindStart` | MBTB-ICCD-master/src/page_table_walker.cc:199-241 | The lowest cache level that hits decides where the walk starts |
| `PageTableWalker.PageTableWalker.FillMmuCaches` | MBTB-ICCD-master/src/page_table_walker.cc:80-111 | The caches that missed learn the pages of the completed walk |
| `PageTableWalker.PageTableWalker.AddRq` | MBTB-ICCD-master/src/page_table_walker.cc:823-893 | A request joins the read queue unless that is full |
| `PageTableWalker.PageTableWalker.AddPq` | MBTB-ICCD-master/src/page_table_walker.cc:899-966 | A request joins the prefetch queue unless that is full |
| `PageTableWalker.PageTableWalker.TakeNext` | MBTB-ICCD-master/src/page_table_walker.cc:186-418 | The oldest request of the read queue goes first, else the oldest of the prefetch queue, for which the entry whose offset is used is an empty one |
| `PageTableWalker.PageTableWalker.BeginNext` | MBTB-ICCD-master/src/page_table_walker.cc:186-418 | The request that is next leaves its queue and starts, which is the specified step with the offset the program uses |
| `PageTableWalker.PageTableWalker.NewRequest` | MBTB-ICCD-master/src/page_table_walker.cc:186-418 | A new request in place equals the specified step |
| `PageTableWalker.PageTableWalker.ReturnData` | MBTB-ICCD-master/src/page_table_walker.cc:968-999 | An answer in place equals the specified step, which `PageWalker.AnswerLowers` takes one level down |
| `PageTableWalker.PageTableWalker.FindMissing` | MBTB-ICCD-master/src/page_table_walker.cc:28-73 | The walk from the root stops at the first level whose page is missing |
| `PageTableWalker.PageTableWalker.Operate` | MBTB-ICCD-master/src/page_table_walker.cc:10-184 | A cycle with an answered request in place equals the specified step |
| `PageTableWalker.StepsReady` | MBTB-ICCD-master/src/page_table_walker.cc:4-440 | Every reachable walker is ready for every enabled step, and its page allocator is sound |
| `Registers.ScheduleKeeps` | MBTB-ICCD-master/src/ooo_cpu.cc:1477-1576 | Scheduling in program order links each source to the youngest older uncompleted writer and keeps the invariant |
| `Registers.ExecuteKeeps` | MBTB-ICCD-master/src/ooo_cpu.cc:1578-1642 | Starting the head of either ring keeps the invariant |
| `Registers.CompleteKeeps` | MBTB-ICCD-master/src/ooo_cpu.cc:2378-2422 | Completion releases every link to the instruction once, whatever the order of its dependents |
| `Registers.ReachableInv` | MBTB-ICCD-master/src/ooo_cpu.cc:1431-1642 | The invariant over every interleaving of dispatch, scheduling, execution, completion and retirement |
| `Registers.DataflowRespected` | MBTB-ICCD-master/src/ooo_cpu.cc:1512-1576 | When an instruction is executing, the youngest older writer in the buffer of each nonzero source register has completed |
| `Registers.WakeUpExact` | MBTB-ICCD-master/src/ooo_cpu.cc:1549-1576 | The dependence counter is the number of sources whose producer has not completed, links lead from older to younger, and an instruction is ready exactly at zero |
| `Registers.EntersOnce` | MBTB-ICCD-master/src/ooo_cpu.cc:2381-2410 | An instruction that is not a memory instruction enters a ready ring exactly once, when it becomes ready |
| `Registers.RingsFit` | MBTB-ICCD-master/src/ooo_cpu.cc:1495-1509 | The ready rings never hold more than their slots, so no push meets a live one |
| `Registers.RingsSplit` | MBTB-ICCD-master/src/ooo_cpu.cc:1495-1509 | Ring 1 takes instructions ready when scheduled, ring 0 those that a completion wakes, each at its end, and each lets only its oldest go |
| `Registers.OldestIsReady` | MBTB-ICCD-master/src/ooo_cpu.cc:2378-2422 | The oldest uncompleted scheduled instruction is ready, and in a ring or started unless it is a memory instruction |
| `Registers.LinksToOlder` | MBTB-ICCD-master/src/ooo_cpu.cc:1512-1576 | A source is linked to its youngest writer exactly when that has not completed, and to an older writer exactly when it has and an older one in the buffer has not |
| `Registers.WaitsForOlder` | MBTB-ICCD-master/src/ooo_cpu.cc:1512-1576 | A concrete run in which a source waits for an older load that misses although the youngest writer has completed |
| `RegisterProgress.SomeStep` | MBTB-ICCD-master/src/ooo_cpu.cc:1431-1642 | In every reachable state with instructions in the buffer a step other than dispatch can be taken, if the oldest instruction, should it access memory, can start and complete when its registers are ready |
| `RegisterProgress.Drains` | MBTB-ICCD-master/src/ooo_cpu.cc:1431-1642 | Without dispatch every step does one piece of the work left, so no run is longer than there were pieces, and the buffer is empty exactly when all are done |
| `Rings.Ring.Push` | MBTB-ICCD-master/src/ooo_cpu.cc:1498-1508 | A push on the circular array appends and never overwrites |
| `Rings.Ring.Pop` | MBTB-ICCD-master/src/ooo_cpu.cc:1584-1600 | A pop frees the head place and takes the oldest |
| `RegisterRing.ReorderBuffer.RegRawDependency` | MBTB-ICCD-master/src/ooo_cpu.cc:1549-1576 | One source is linked to one older instruction exactly when it writes the register |
| `RegisterRing.ReorderBuffer.RegDependency` | MBTB-ICCD-master/src/ooo_cpu.cc:1512-1547 | The backward scan over the circular buffer, wrapping or not, finds for every source the youngest older uncompleted writer, and updates dependents, counter and ready flag accordingly |
| `CoreConfig.Stretch` | MBTB-ICCD-master/src/ooo_cpu.cc:1512-1547 | The older instructions lie in one stretch below the current slot, or in that and one at the top of the ring |
| `Scheduler.Scheduler.AddToRob` | MBTB-ICCD-master/src/ooo_cpu.cc:966-1005 | Dispatch takes the empty slot at the tail and is one step of the state machine of `Registers` |
| `Scheduler.Scheduler.DoScheduling` | MBTB-ICCD-master/src/ooo_cpu.cc:1477-1510 | Scheduling on the circular arrays, links, dependents and ring 1 included, is the scheduling step; the push meets a free place |
| `Scheduler.Scheduler.ScheduleInstruction` | MBTB-ICCD-master/src/ooo_cpu.cc:1431-1475 | The loop stops at the end of the ring, at the first slot that is empty or not due, or after 128; it leaves none of the slots before that unscheduled and no other slot changed, and it schedules in program order as many as were unscheduled |
| `Scheduler.Scheduler.ExecuteHead` | MBTB-ICCD-master/src/ooo_cpu.cc:1586-1642 | A turn of either issue loop starts the head of its ring exactly when there is one and it is due, and is that execution step |
| `Scheduler.Scheduler.StartMemoryInstruction` | MBTB-ICCD-master/src/ooo_cpu.cc:1705-1717 | A ready memory instruction starts; it cannot have started before |
| `Scheduler.Scheduler.RegRawRelease` | MBTB-ICCD-master/src/ooo_cpu.cc:2378-2422 | Walking the sets of dependents, in whatever order, releases every link to the completed instruction exactly once, with room in ring 0 for all it wakes |
| `Scheduler.Scheduler.CompleteExecution` | MBTB-ICCD-master/src/ooo_cpu.cc:2223-2234 | Completion and release in place are one completion step, which happens exactly when the instruction is executing and due |
| `Scheduler.Scheduler.RetireHead` | MBTB-ICCD-master/src/ooo_cpu.cc:2948-2966 | Retirement clears the slot at the head and is the retirement step |
| `Scheduler.ReleaseEnd` | MBTB-ICCD-master/src/ooo_cpu.cc:2378-2422 | When the row of a completed instruction is used up, the order of release lists each of its dependents once |
| `Scheduler.RowSays` | MBTB-ICCD-master/src/ooo_cpu.cc:1558-1566 | The sets of dependents of a slot name exactly the slots and sources linked to its instruction |
| `Scheduler.NextSlot` | MBTB-ICCD-master/src/ooo_cpu.cc:1435-1475 | With all older instructions scheduled, a filled slot is unscheduled exactly when it holds the oldest unscheduled instruction |
| `LoadStore.AddLoadKeeps` | MBTB-ICCD-master/src/ooo_cpu.cc:1765-1942 | A load entering the queue is bound, forwarded or sent, and the invariant is kept |
| `LoadStore.ExecuteStoreKeeps` | MBTB-ICCD-master/src/ooo_cpu.cc:2081-2175 | An executing store releases its dependent loads and keeps the invariant |
| `LoadStore.ReachableInv` | MBTB-ICCD-master/src/ooo_cpu.cc:1718-2175 | The invariant over every interleaving |
| `LoadStore.ForwardedByYoungest` | MBTB-ICCD-master/src/ooo_cpu.cc:1797-1933 | A load goes to the cache only if no older store in the buffer has its address; otherwise it waits for, or was released by, the youngest such store |
| `LoadStore.ReleasedOnce` | MBTB-ICCD-master/src/ooo_cpu.cc:2103-2173 | A load is released at most once, and who released it never changes |
| `LoadStore.CountExact` | MBTB-ICCD-master/src/ooo_cpu.cc:2088-2096 | The operation count is exact and never negative, and zero exactly when the store is done and all loads are released |
| `LoadStore.ChecksHold` | MBTB-ICCD-master/src/ooo_cpu.cc:2116-2134 | When a store executes, every dependent load with its address waits for this very store, so the check passes |
| `MemoryProgress.SomeStep` | MBTB-ICCD-master/src/ooo_cpu.cc:1718-2175 | In every reachable state with instructions in the buffer, a step other than dispatch can be taken, if queue slots are no obstacle |
| `MemoryProgress.Drains` | MBTB-ICCD-master/src/ooo_cpu.cc:1718-2175 | Without dispatch every step lessens the work left, so every run ends, and nothing is left exactly when the buffer is empty |
| `Occupancy.HeldInQueues` | MBTB-ICCD-master/src/ooo_cpu.cc:1765-2013 | The occupancies of the two queues are the numbers of loads and stores that hold a slot |
| `LoadQueues.LoadStoreUnit.AddToRob` | MBTB-ICCD-master/src/ooo_cpu.cc:966-1005 | Dispatch takes the slot at the tail and is one step of the state machine of `LoadStore` |
| `LoadQueues.LoadStoreUnit.AddLoadQueue` | MBTB-ICCD-master/src/ooo_cpu.cc:1765-1942 | Slot search, dependency scan, store queue search and forwarding in place are the step of a load entering: it waits, is sent, or is served at once |
| `LoadQueues.LoadStoreUnit.FindFree` | MBTB-ICCD-master/src/ooo_cpu.cc:1766-1780 | While the occupancy is below the size, the search finds a free slot |
| `LoadQueues.LoadStoreUnit.SearchProducer` | MBTB-ICCD-master/src/ooo_cpu.cc:1797-1824 | The backward scan over the circular buffer, stopping at the first hit, binds the load to the youngest older store of its address, wherever the window lies |
| `LoadQueues.LoadStoreUnit.MemRawDependency` | MBTB-ICCD-master/src/ooo_cpu.cc:1944-1973 | An older instruction that stores to the address of the load becomes its producer, and the load one of its dependents; otherwise nothing changes |
| `LoadQueues.YoungestFound` | MBTB-ICCD-master/src/ooo_cpu.cc:1797-1824 | Stopping the scan at the first hit finds what scanning the whole window would |
| `LoadQueues.LoadStoreUnit.FindForward` | MBTB-ICCD-master/src/ooo_cpu.cc:1829-1880 | The search returns a place with the address and the producer of the load, or the size when there is none |
| `LoadQueues.ForwardMeans` | MBTB-ICCD-master/src/ooo_cpu.cc:1882-1915 | What that search finds has executed exactly when the load need not wait |
| `LoadQueues.OneHit` | MBTB-ICCD-master/src/ooo_cpu.cc:2103-2134 | A load of a dependent with the address of the executing store has its slot, waiting for this very store, and no other slot is its |
| `LoadQueues.LoadStoreUnit.ReleaseLoad` | MBTB-ICCD-master/src/ooo_cpu.cc:2103-2173 | One turn of the inner loop releases the load exactly when it must, and the check of its producer holds |
| `LoadQueues.LoadStoreUnit.ReleaseDependents` | MBTB-ICCD-master/src/ooo_cpu.cc:2103-2173 | Walking the set of dependents, in whatever order, releases every load that waits for the store and no other |
| `LoadQueues.LoadStoreUnit.ExecuteStoreAt` | MBTB-ICCD-master/src/ooo_cpu.cc:2081-2175 | The execution of a store in place, with all it releases, is the execution step |
| `LoadQueues.LoadStoreUnit.CompleteDataFetch` | MBTB-ICCD-master/src/ooo_cpu.cc:2680-2704 | An answer of the cache finishes the load of its slot and frees the slot |
| `LoadQueues.HeadStore` | MBTB-ICCD-master/src/ooo_cpu.cc:2926-2946 | The store of a retiring instruction is at the head of the store queue |
| `LoadQueues.LoadStoreUnit.RetireHead` | MBTB-ICCD-master/src/ooo_cpu.cc:2918-2966 | Retirement frees the slot at the head and the store at the head of the store queue, and is the retirement step |
| `LoadQueues.StoreSays` | MBTB-ICCD-master/src/ooo_cpu.cc:1975-2013 | A filled place of the store queue holds the store of an instruction in the buffer, with its address and whether it has executed |
| `LoadQueues.LoadSays` | MBTB-ICCD-master/src/ooo_cpu.cc:1784-1795 | A used slot of the load queue belongs to the one live load it names |
| `PipelineOrder.ProgramOrder` | MBTB-ICCD-master/src/ooo_cpu.cc:1189-1233 | Reorder buffer, decode buffer and fetch target queue list exactly the consecutive instructions from the next to retire to the last read |
| `PipelineOrder.RingNeverFull` | MBTB-ICCD-master/src/ooo_cpu.cc:312-328 | At most 604 instructions are in flight, so with two stores each fewer stores wait than the store address ring has entries |
| `PipelineOrder.StoreAddressRing.ReadInstruction` | MBTB-ICCD-master/src/ooo_cpu.cc:311-328 | In every reachable state the places at the tail of the circular array are free, and the stores of the instruction read take them |
| `PipelineOrder.StoreAddressRing.IsNext` | MBTB-ICCD-master/src/ooo_cpu.cc:1739-1744 | The check of the head place says whether the instruction has the oldest store that has not entered |
| `PipelineOrder.StoreAddressRing.Enter` | MBTB-ICCD-master/src/ooo_cpu.cc:2002-2006 | A store that enters the store queue frees the head place, and is the step of the pipeline |
| `PipelineOrder.StoresInOrder` | MBTB-ICCD-master/src/ooo_cpu.cc:1975-2013 | Stores enter and leave the store queue in program order, and a retiring instruction's stores are exactly those at the head |
| `PipelineOrder.RetireKeeps` | MBTB-ICCD-master/src/ooo_cpu.cc:2918-2966 | Retirement takes the oldest instruction and its stores, and keeps the order |
| `StoreOrder.HeadMayEnter` | MBTB-ICCD-master/src/ooo_cpu.cc:1739-1744 | The store at the head of the store address ring is the one whose older stores have all entered, and no younger one has |
| `StoreOrder.OrderedUnit.ReadStore` | MBTB-ICCD-master/src/ooo_cpu.cc:311-328 | The place at the tail of the ring is free for the store of the instruction read |
| `StoreOrder.OrderedUnit.AddToRob` | MBTB-ICCD-master/src/ooo_cpu.cc:966-1005 | Dispatch keeps the ring in step with the buffer |
| `StoreOrder.OrderedUnit.AddStoreQueue` | MBTB-ICCD-master/src/ooo_cpu.cc:1733-1752 | With the ring, the load queue and the store queue on their arrays, a store enters exactly when all older ones have, and entering is the step of the state machine |
| `StoreOrder.OrderedUnit.RetireHead` | MBTB-ICCD-master/src/ooo_cpu.cc:2918-2966 | Retirement keeps the ring in step with the buffer |
| `WholeCore.StepKeeps` | MBTB-ICCD-master/src/ooo_cpu.cc:1644-1765 | Every step of the whole core keeps both invariants, the agreement of registers and memory operations, the order of the stores and the bounds of both queues |
| `WholeCore.AttainedSound` | MBTB-ICCD-master/src/ooo_cpu.cc:1431-1765 | The same over every run, so all that is proved of registers and of memory operations holds of the whole core |
| `WholeCore.ReadyMeans` | MBTB-ICCD-master/src/ooo_cpu.cc:1549-1576 | A scheduled instruction is ready exactly when all its producers have completed |
| `CoreProgress.DoomedExactly` | MBTB-ICCD-master/src/ooo_cpu.cc:1644-1765 | The oldest instruction can never retire, whatever happens, exactly when it has a load outside, the load queue is full, and no load in it can be served without another load entering |
| `CoreProgress.NextStep` | MBTB-ICCD-master/src/ooo_cpu.cc:1644-1765 | While instructions are in the buffer and the core is not jammed, a step other than dispatch is possible that retires the oldest instruction or leaves the core not jammed |
| `CoreProgress.RetiresLater` | MBTB-ICCD-master/src/ooo_cpu.cc:1644-1765 | From a core that is not jammed some run of possible steps retires the oldest instruction |
| `CoreProgress.JamLasts` | MBTB-ICCD-master/src/ooo_cpu.cc:1644-1765 | A jammed core stays jammed in every run |
| `CoreProgress.Drains` | MBTB-ICCD-master/src/ooo_cpu.cc:1644-1765 | Without dispatch every run is bounded by the work left, and where no step is possible the buffer is empty or the core jammed |
| `CoreProgress.CompleteRoot` | MBTB-ICCD-master/src/ooo_cpu.cc:1718-1765 | What cannot complete waits, through registers and stores, for a load that is kept out or a place in a crowded store queue |
| `CoreProgress.JammedLoad` | MBTB-ICCD-master/src/ooo_cpu.cc:1797-1824 | Every load in the queue of a jammed core waits for an older store that has not entered, with such a root |
| `StuckRun.GetsStuck` | MBTB-ICCD-master/src/ooo_cpu.cc:1644-1765 | A concrete run of 36 instructions, with a load that misses and an address computation in front, after which the oldest instruction is a ready load that can never enter, and the store queue is empty |
| `PipelineOrder.FetchTargetQueue.CheckOccupancy` | MBTB-ICCD-master/inc/ftq.h:22-35 | There is room exactly when a group is free or the last one can take the instruction |
| `PipelineOrder.RoomExactly` | MBTB-ICCD-master/inc/ftq.h:22-35 | There is room exactly when, with the instruction, the queue keeps to its groups and their sizes |
| `PipelineOrder.AlwaysGrouped` | MBTB-ICCD-master/src/ooo_cpu.cc:1007-1036 | In every reachable state a group holds one block, and but for the oldest and the last it is full or the next is of another block |
| `PipelineOrder.FetchTargetQueue.Add` | MBTB-ICCD-master/src/ooo_cpu.cc:1007-1059 | The instruction joins the last group or opens a new one, which is free |
| `PipelineOrder.FetchTargetQueue.TakeFirst` | MBTB-ICCD-master/src/ooo_cpu.cc:1197-1233 | The drain takes the oldest instruction, closes a used-up group and rewinds an empty queue |

## Left out

- LoadQueues: event cycles and the ready-to-load and ready-to-store rings only decide when a step happens and are left
  out. Its `AddStoreQueue` needs stores in program order, which `StoreOrder.OrderedUnit.AddStoreQueue` establishes.
- Scheduler: event cycles only decide when a step happens, which is a parameter, as is the width of each stage; the flag
  that an instruction has dependents is left out, as releasing none does nothing.
- PipelineOrder: the reorder buffer, decode buffer and store queue are sequences; the fetch target queue and the store
  address ring are modelled on their circular arrays.
- StoreOrder: an instruction has one store, and the steps of the load store unit that leave the ring alone are those of
  `LoadQueues`, which keep it in step by `InnerKeeps`.
- WholeCore: each operation of a memory instruction enters in a step of its own, and so does its start, which the program
  does in one call; event cycles, the ready-to-load and ready-to-store rings and the write port that retiring stores
  need only delay steps.
- PageTree: the linked table pages are modelled as one table from the path of entry indices to the page they lead to, so
  sharing of page objects is not captured.
- PageTableWalker: the MMU caches are values replaced by each fill rather than arrays of lines; the in-place LRU set is
  `Lru.CacheSet`. Of the request queues only the addresses are modelled; latencies, stall cycles and
  the assertion that a request is not queued already are left out.
- Dram: addresses are decoded for one channel and rank; statistics, and the out-of-range CPU index read through an empty
  queue's first entry, are left out.
- MicroBtb: the first level is the same structure as that of the plain buffer and is not repeated; statistics and the
  predecode buffer are left out.
- OptGen: the sampler's hashing, its timer wrap at `TIMER_SIZE` and the counters that it trains are not part of the model.
- The cache hierarchy, its prefetchers and the other replacement policies.
- The shotgun, FDIP-X, skewed and divide-and-conquer branch target buffers, the return address stack and the bimodal
  predictors.
- Trace reading, address translation outside the walker, option parsing, printing and statistics.
