# Verified models of the driver stack

This project models the stateful core of the repository's user-space drivers
in Dafny and proves what the drivers rely on but do not check. It verifies
with

    dafny verify dfyconfig.toml

Each driver that updates state in place is modelled twice: as a class whose
methods update arrays and fields step by step, and as pure functions on a
value (`View()` of the class). The methods are proved to do what the functions
do; the theorems over whole runs are about the functions.

- **Split virtqueues** (`Rings`, `VirtQueues`, `VirtQueueDriver`): the
  intrusive free list, the two rings with wrapping 16-bit indices, chain walks
  that free what they have just read. A ledger says who owns each descriptor:
  the free list, a chain in flight, or nobody any more.
- **Block driver** (`Blocks`, `BlockRuns`, `BlockLosses`, `BlockDisk`,
  `BlockDriver`, `PendingTable`): invariants over every run whatever the device
  writes into used ring and status bytes, and refinement of an asynchronous
  disk with a device that follows VirtIO 1.1.
- **Network driver** (`Nets`, `NetLosses`, `NetDevices`, `NetExchanges`,
  `NetDrains`, `NetDriver`): two queues with per-head pending tables, with a device that
  writes what it likes into the used rings, one that keeps to its heads, and one
  that publishes each head once.
- **Payloads** (`Payloads`, `BlockPayloads`, `DiskPayloads`, `NetPayloads`): the
  same runs when the device also fills the buffers of reads and receives, which
  lie wherever the client's requests put them.
- **The shared window** (`Windows`): which client addresses the two drivers
  accept and where they send the device for them.
- **GPU driver** (`Gpu`): synchronous commands to a device that answers each
  command once; the reply may depend on everything received so far.
- **DMA layout and transport** (`Layout`, `Transport`): where everything lies,
  and that the device is told the same.
- **UART** (`Uarts`, `UartDriver`): hardware FIFO, bounded buffer and shared
  rings, with a chip that delivers finitely many bytes at arbitrary moments.
- **Ramdisk** (`Ramdisks`, `RamdiskDriver`), **PCI enumeration** (`PciConfig`,
  `PciScan`, `PciDriver`), **ACPI `_CRS` parsing** (`Crs`), **device-tree
  flattening** (`DeviceTree`, `UnitAddresses`).
- `Base` holds machine integers and shared vocabulary, `IoUring` the ring
  server as the drivers rely on it: requests leave in order, completions are
  appended to a log.

## Where the code differs from what one would expect

The models follow the code. Each of these is a theorem with its exact
condition or a run that shows it:

- The block driver has 64 slots but never more than 42 requests in flight,
  because 128 descriptors make 42 chains of three (`BlockRuns.SubmitOutcome`).
  The first acceptable request that meets 42 in flight costs it the two
  descriptors left over, for good (`LossMeansRunOut`,
  `FortyThreeRequestsLoseTwo`); the number in flight stays bounded by 42.
- The network driver loses two descriptors for each request that fails the
  window check (`Nets.SubmitOutcome`); 64 of them close the queue for good
  (`ClosedForGood`, `SixtyFourRejectionsCloseQueue`). It ends exactly when it
  takes a used id of 128 or more (`CrashMeansWildId`, `WildIdEndsDriver`).
- Neither virtio driver keeps a client's buffer off the driver's own pages:
  without a window any address is accepted, and with one an address whose end
  wraps. The device then overwrites the driver's queue, and the account of
  descriptors is gone (`ReadOntoQueueBreaksAccount`,
  `ReceiveOntoQueueBreaksAccount`). Exactly which requests reach the pages is
  `HitsPagesExactly`, exactly which accepted ones are safe
  `AcceptedReadIsSafeExactly` and `AcceptedReceiveIsSafeExactly`; a regular
  window apart from the pages and sums within 64 bits suffice
  (`WindowedIsHarmless`).
- The window check of both drivers adds with wrap-around: a range far outside
  the shared window can pass it (`WrapDeceivesCheck`); `CheckIsExact` says when
  accepted means inside.
- Rings keep the order of their entries if and only if their size divides
  65536 (`OrderKeptIffSizeDivides`); `new` accepts any size.
- The ramdisk's range check can be deceived by wrap-around
  (`WrapDeceivesRangeCheck`, `RejectedIffOffDisk`), its copies can leave the
  disk or the buffer (`FaultsExactly`, `WrappedAddressFaults`), and a transfer
  of 2 GiB or more reports a negative result (`ReplyIsLength`), as does a
  received packet of that length (`PostedLengthReadsBack`).
- The GPU driver takes a reply before the device has answered if the memory of
  a fresh queue holds a used index other than zero (`StaleIndexSkipsWait`); the
  first command then returns a cleared reply (`SendCommand`), and the display is
  taken to be 1280 by 720 (`DetectDisplay`).
- A PCI scan visits bus 0 even when the mapped window is smaller than a bus
  (`ScanStaysInWindow`).
- The `_CRS` loop reads out of bounds on memory range descriptors shorter than
  nine bytes and on interrupt descriptors that end before their mask
  (`CrashesExactly`).
- The packet header of the network driver is 10 bytes (`Describe`), not the 12
  of section 5.1.6 of VirtIO 1.1.

## Model

| member | source | states |
|---|---|---|
| `Rings.RingIsFifo` | virtio/common/src/queue.rs:124-163 | Over every run of puts and takes, for any ring size dividing 65536 and any number of index wrap-arounds, what was taken is a prefix of what was put, in order, and the rest is in the ring; a producer within the ring overwrites nothing that is still to be taken. |
| `Rings.PutExtends` | virtio/common/src/queue.rs:124-138 | Storing at `head % size` and stepping the index appends to the live entries, wrap-around included, as long as the ring is not full. |
| `Rings.TakeDropsFirst` | virtio/common/src/queue.rs:148-163 | Reading at `tail % size` and stepping the index removes exactly the oldest live entry. |
| `Rings.OrderKeptIffSizeDivides` | virtio/common/src/queue.rs:58-71 | The rings keep the order of their entries over every run if and only if their size divides 65536, over the runs from a fresh ring and over the runs from any ring in order; `new` accepts any size. |
| `Rings.UnalignedSizesBreakOrder` | virtio/common/src/queue.rs:124-138 | For every other size a run from the empty ring of a fresh queue, indices at 0, loses its oldest entry when the indices first wrap, while the ring is not full. |
| `Rings.UnalignedSizeBreaksFifo` | virtio/common/src/queue.rs:130-136 | The instance of size 3: after 65535 entries have passed through a fresh ring, two entries 7 and 8 read as 8 and 8. |
| `Rings.NearbySlotsDiffer` | virtio/common/src/queue.rs:130-133 | Indices less than a ring apart never share a slot. |
| `VirtQueues.OwnersAreDisjoint` | virtio/common/src/queue.rs:92-114 | Free list, chains in flight and lost descriptors are pairwise disjoint and free of repetition. |
| `VirtQueues.OwnersCoverTable` | virtio/common/src/queue.rs:73-75 | Every descriptor id is free, in a chain, or lost. |
| `VirtQueues.AllocTakesTop` | virtio/common/src/queue.rs:92-103 | Allocation returns the top of the intrusive free list and leaves the rest of it, and fails exactly when it is empty. |
| `VirtQueues.FreePutsTop` | virtio/common/src/queue.rs:105-114 | Freeing a descriptor puts it on top of the list that `next` threads through the table. |
| `VirtQueues.WalkVisitsChain` | virtio/block/src/blk.rs:255-264 | The flag-following walk over a proper chain visits that chain, all of it and nothing else, and ends. |
| `VirtQueues.FreeAllPutsTop` | virtio/block/src/blk.rs:255-264 | The walk that frees each descriptor right after reading it returns exactly the chain to the free list. |
| `VirtQueues.LaunchTriple` | virtio/block/src/blk.rs:213-233 | Allocating three and linking them keeps the account of all descriptors; the three become one new chain. |
| `VirtQueues.LaunchPair` | virtio/net/src/net.rs:160-209 | The same for chains of two. |
| `VirtQueues.SubmitKeepsOwned` | virtio/common/src/queue.rs:124-138 | Announcing a head moves no descriptor. |
| `VirtQueues.AbandonKeepsOwned` | virtio/block/src/blk.rs:213-215 | Descriptors allocated and then forgotten move to the lost set; nothing else moves. |
| `VirtQueues.RetireKeepsOwned` | virtio/block/src/blk.rs:255-264 | Freeing a chain gives exactly its own descriptors back and leaves every other chain linked. |
| `VirtQueues.FreshIsOwned` | virtio/common/src/queue.rs:58-71 | After initialisation every descriptor is on the free list, in table order. |
| `VirtQueueDriver.VirtQueue.constructor` | virtio/common/src/queue.rs:58-71 | The initialising loop links the whole table into the free list. |
| `VirtQueueDriver.VirtQueue.AllocDesc` | virtio/common/src/queue.rs:92-103 | The in-place allocation is the one the free-list lemmas are about. |
| `VirtQueueDriver.VirtQueue.FreeDesc` | virtio/common/src/queue.rs:105-114 | The in-place release likewise. |
| `VirtQueueDriver.VirtQueue.WriteDesc` | virtio/common/src/queue.rs:116-122 | One table entry is replaced. |
| `VirtQueueDriver.VirtQueue.Submit` | virtio/common/src/queue.rs:124-138 | The head is stored at `idx % num`, then the index steps with wrap-around. |
| `VirtQueueDriver.VirtQueue.CanPop` | virtio/common/src/queue.rs:140-146 | There is something to take exactly when the two used indices differ. |
| `VirtQueueDriver.VirtQueue.Pop` | virtio/common/src/queue.rs:148-163 | The used element at `last_used_idx % num` is taken and the index steps; nothing is taken from an empty ring. |
| `VirtQueueDriver.VirtQueue.FreeChain` | virtio/block/src/blk.rs:255-264 | The freeing loop, which reads flags and next of a descriptor before it frees it, releases the whole chain. |
| `BlockRuns.EveryRun` | virtio/block/src/blk.rs:122-279 | In every reachable state, for any contents the device writes into used ring, used index and status bytes: the 128 descriptors are the free list, one chain of three per occupied slot, and zero or two lost ones; free + 3 · pending + lost = 128; free mod 3 tells whether any are lost; at most 42 requests are in flight; every request fetched is completed, in flight or still to be submitted, exactly once. With the payloads of reads: `EveryRunWithPayloads`. |
| `BlockRuns.SubmitOutcome` | virtio/block/src/blk.rs:155-243 | A request is accepted if and only if it is acceptable and fewer than 42 are in flight; OutOfMemory if and only if it is acceptable and 42 are; a refused request leaves avail ring and pending table as they were. |
| `BlockRuns.SlotSearchNeverFails` | virtio/block/src/blk.rs:166-167 | The search of the 64-slot table always finds a slot. |
| `BlockRuns.ClaimStrands` | virtio/block/src/blk.rs:213-215 | Allocation without rollback: with two descriptors free those two are lost for good, with none free nothing changes, and one free never happens. |
| `BlockLosses.LossMeansRunOut` | virtio/block/src/blk.rs:213-215 | Over every run two descriptors are lost if and only if some acceptable request was submitted while 42 were in flight, and none otherwise. |
| `BlockLosses.FortyThreeRequestsLoseTwo` | virtio/block/src/blk.rs:155-243 | It happens: from the initial state, 43 acceptable requests leave 42 in flight, the last one refused with OutOfMemory and completed with -1, no descriptor free and two lost. |
| `BlockLosses.FillUp` | virtio/block/src/blk.rs:155-243 | Up to 42 acceptable requests in a row all go in flight, without a completion and without a loss. |
| `BlockLosses.StepLoses` | virtio/block/src/blk.rs:122-279 | Only the submission of an acceptable request while 42 are in flight changes the number of lost descriptors. |
| `BlockLosses.RunningOutIsReported` | virtio/block/src/blk.rs:213-215 | In every reachable state a submission reports OutOfMemory if and only if its request is acceptable and 42 are in flight. |
| `BlockLosses.SubmitInWindow` | virtio/block/src/blk.rs:197-211 | With sums within 64 bits a request is accepted if and only if it is aligned, supported, inside the window, and fewer than 42 are in flight. |
| `BlockLosses.WrappedRequestIsAccepted` | virtio/block/src/blk.rs:201-203 | A concrete request far outside the window is accepted because its end wraps round. |
| `Windows.CheckIsExact` | virtio/block/src/blk.rs:201-203 | For every window, address and length: the check accepts exactly the ranges inside the window if and only if wrap-around does not deceive it, by a condition on the two sums. |
| `Windows.TranslationStaysInside` | virtio/block/src/blk.rs:207-207 | A range inside the window is translated by a constant offset and stays inside the memory behind it. |
| `Windows.TranslationIsOffset` | virtio/block/src/blk.rs:197-211 | Where an accepted address is sent: to itself without a window, and with one as far behind its memory's start as it is behind the client's, modulo 2^64. |
| `Windows.WrapDeceivesCheck` | virtio/block/src/blk.rs:201-207 | A concrete range outside the window passes the check, and the device is sent outside the memory behind it. |
| `BlockRuns.WalkIsOwnChain` | virtio/block/src/blk.rs:255-264 | The walk of a completion visits exactly the three descriptors of its own request. |
| `BlockRuns.SubmitLeavesOthers` | virtio/block/src/blk.rs:155-243 | A submission leaves header, status byte, descriptors and slot of every other request in flight unchanged. |
| `BlockRuns.FinishLeavesOthers` | virtio/block/src/blk.rs:248-276 | So does the completion of another request. |
| `BlockRuns.SubmitKeepsSound` | virtio/block/src/blk.rs:155-243 | Accepted or refused, a submission keeps the account of descriptors and the match of slots and chains. |
| `BlockRuns.PopOneKeeps` | virtio/block/src/blk.rs:247-276 | Taking a used element keeps the invariant, whatever id the device put there. |
| `BlockRuns.DeviceKeeps` | virtio/block/src/blk.rs:245-279 | No invariant depends on the used ring's contents or index, or on the status bytes. |
| `BlockRuns.HandleRingIsRun` | virtio/block/src/blk.rs:122-153 | A whole wake-up is a run of the driver's own single steps, without any by the device, so the run theorems hold after it and it can be put into any run of driver and device. |
| `BlockRuns.WakeUp` | virtio/block/src/blk.rs:122-153 | A wake-up takes the first sixteen requests or as many as there are, submits them all, and drains the used ring if there were any. |
| `BlockRuns.SubmitNextTakes` | virtio/block/src/blk.rs:140-148 | Each submission takes the oldest fetched request and answers a refused one with -1 at once. |
| `BlockRuns.PopAllIsRun` | virtio/block/src/blk.rs:245-279 | A whole drain of the used ring is a run of pops and nothing else. |
| `Blocks.PopOneAdvances` | virtio/block/src/blk.rs:247-247 | Each pop brings the driver one element closer to the device's index, which is why the drain ends. |
| `Blocks.PopPosts` | virtio/block/src/blk.rs:247-276 | What a used element posts: for the head of a request in flight its own tag, with 0 if its own status byte is 0 and -1 otherwise; for any other id nothing. |
| `Blocks.FirstEmpty` | virtio/block/src/blk.rs:166-167 | The search returns the first empty slot, or none only when all are occupied. |
| `BlockDisk.BlockRefinesDisk` | virtio/block/src/blk.rs:155-279 | Main theorem: for every interleaving of client, driver and a device that completes in any order, what the client sees is a run of an asynchronous disk that decides on the client's requests one by one and in order; it accepts a request, as the very operation, sector, buffer and length it names, only if it is proper and fewer than 42 are in flight, and refuses it only otherwise; with sums within 64 bits every accepted request lies in the client's window and is served in the memory behind it. The device writes used ring and status bytes of the driver's memory; with payloads anywhere: `BlockRefinesDiskWithPayloads`. |
| `BlockDisk.StepRefines` | virtio/block/src/blk.rs:155-279 | Every step of driver or device, payloads aside, is one step of the asynchronous disk or invisible; a result is posted once, under the request's own tag: 0 if the device answered 0, and -1 otherwise. |
| `BlockDisk.StepKeeps` | virtio/block/src/blk.rs:155-279 | Every such step keeps the invariant that places each chain in exactly one of avail ring, device, served set and used ring. |
| `BlockDisk.RunDecides` | virtio/block/src/blk.rs:140-148 | Over a run the decisions are on the fetched requests, one each, in the order they were fetched. |
| `BlockDisk.AcceptanceIsDue` | virtio/block/src/blk.rs:155-243 | The driver accepts the next request exactly when it is proper and fewer than 42 requests are in flight, in every state of driver and device. |
| `BlockDisk.DeviceReadsRequest` | virtio/block/src/blk.rs:184-233 | What the device reads through descriptors and DMA memory at a head is the request of the slot that owns the head. |
| `BlockDisk.RoomInRing` | virtio/block/src/blk.rs:236-236 | At most 42 heads are announced and not consumed, so `submit` never overwrites one. |
| `BlockDisk.AcceptedIsPrefilled` | virtio/block/src/blk.rs:180-191 | A new request's reserved field is zero and its status byte 0xFF, so an unanswered one does not read as a success. |
| `BlockDisk.AcceptedReads` | virtio/block/src/blk.rs:184-239 | The chain written for a request says that request's type, sector, buffer address and length. |
| `BlockDriver.VirtIOBlk.constructor` | virtio/block/src/blk.rs:76-114 | After `init` all descriptors are free, all slots empty, and the invariant holds exactly if the device's block size is not zero. |
| `BlockDriver.VirtIOBlk.FindEmpty` | virtio/block/src/blk.rs:166-167 | The loop finds the first empty slot. |
| `BlockDriver.VirtIOBlk.FindPending` | virtio/block/src/blk.rs:248-251 | The loop finds the first slot whose head is the popped id. |
| `BlockDriver.VirtIOBlk.TranslateAddr` | virtio/block/src/blk.rs:197-211 | The check and translation of the theorems about windows, wrapping sums included; with sums within 64 bits it accepts exactly the ranges inside the window and answers with an address range behind it. |
| `BlockDriver.VirtIOBlk.AllocThree` | virtio/block/src/blk.rs:213-215 | Three allocations in a row, stopping at the first failure without giving anything back. |
| `BlockDriver.VirtIOBlk.EnqueueChain` | virtio/block/src/blk.rs:217-236 | Header, data and status descriptor are written and linked, and the head announced. |
| `BlockDriver.VirtIOBlk.SubmitVirtioRequest` | virtio/block/src/blk.rs:155-243 | The in-place submission does exactly what the run theorems assume of a submission, error for error. |
| `BlockDriver.VirtIOBlk.FinishSlot` | virtio/block/src/blk.rs:253-275 | The slot is emptied, the chain freed, and one completion posted: the request's tag with 0 if its own status byte is 0, and -1 otherwise. |
| `BlockDriver.VirtIOBlk.PopNext` | virtio/block/src/blk.rs:247-276 | One used element is taken in place, and the invariant is kept for any id in it. |
| `BlockDriver.VirtIOBlk.PopCompletions` | virtio/block/src/blk.rs:245-279 | The drain empties the used ring as the device published it, and ends. |
| `BlockDriver.VirtIOBlk.FetchRequests` | virtio/block/src/blk.rs:127-134 | At most sixteen requests are taken, in order. |
| `BlockDriver.VirtIOBlk.HandleRing` | virtio/block/src/blk.rs:122-153 | A wake-up submits what it fetched, completes failures with -1, then drains, and keeps the invariant. |
| `BlockDriver.VirtIOBlk.HandleIrq` | virtio/block/src/blk.rs:116-120 | An acknowledged interrupt drains the used ring; any other does nothing. |
| `Payloads.InvisibleIffMissed` | virtio/block/src/blk.rs:229-230 | A device's write to a range, whatever it contains, leaves a queue as it was if and only if the range misses every descriptor, ring slot and index of it. |
| `Payloads.HitCanChange` | virtio/block/src/blk.rs:229-230 | A range that hits one of them can change the queue, to one that still has its form. |
| `Payloads.OutsideMisses` | virtio/common/src/queue.rs:73-90 | A range outside the queue's area misses all of them, for every queue size. |
| `Payloads.WindowKeepsOffPages` | virtio/block/src/blk.rs:197-207 | With a regular window whose memory is apart from the driver's four pages, no request whose sums stay within 64 bits sends the device there. |
| `Payloads.HitsPagesExactly` | virtio/block/src/blk.rs:197-211 | Exactly which accepted requests reach the pages, with a window or without, wrapped or not: those that start on the pages' image in the client's addresses or less than their own length before it, modulo 2^64. |
| `Payloads.WrapsOntoPages` | virtio/block/src/blk.rs:201-207 | A concrete address whose end wraps passes the check of a window apart from the pages and is translated onto the third of them. |
| `BlockPayloads.InvisibleIffMissesDriver` | virtio/block/src/blk.rs:174-195 | What the device writes into a buffer never shows in headers, status bytes or queue if and only if the buffer misses them all. |
| `BlockPayloads.AcceptedReadIsSafeExactly` | virtio/block/src/blk.rs:197-230 | For every accepted read: whatever the device fills its buffer with, the driver does not change, if and only if the translated buffer misses the driver's memory. |
| `BlockPayloads.WindowedIsHarmless` | virtio/block/src/blk.rs:197-207 | What a caller can ensure: a regular window apart from the driver's pages and sums within 64 bits keep every read off the driver's memory. |
| `BlockPayloads.PayloadsAreInvisible` | virtio/block/src/blk.rs:155-279 | Under such requests a run in which the device also fills the buffers of reads, with anything, is the run without these steps. |
| `BlockPayloads.EveryRunWithPayloads` | virtio/block/src/blk.rs:122-279 | So in every reachable state of a run with payloads, under harmless requests, the account of descriptors balances, at most 42 requests are in flight, and two descriptors are lost exactly if an acceptable request met 42 in flight. |
| `BlockPayloads.ReadOntoQueueIsAccepted` | virtio/block/src/blk.rs:208-211 | Without a window a read onto the driver's own queue is accepted in every sound state with room. |
| `BlockPayloads.WrappedReadOntoQueueIsAccepted` | virtio/block/src/blk.rs:201-207 | So is one whose end wraps, with a window apart from the driver's pages: the device is sent onto the descriptor table. |
| `BlockPayloads.ZeroedHeadBreaksAccount` | virtio/block/src/blk.rs:217-236 | With the first descriptor of a request in flight overwritten by zeros no account of the descriptors balances. |
| `BlockPayloads.ReadOntoQueueBreaksAccount` | virtio/block/src/blk.rs:208-230 | It happens: one such read from a fresh driver, served as the standard says, ends in a state without an account. |
| `DiskPayloads.PayloadsAreInvisible` | virtio/block/src/blk.rs:155-279 | The same for driver and device together: under harmless requests filling the buffer of a read the device holds does not show. |
| `DiskPayloads.BlockRefinesDiskWithPayloads` | virtio/block/src/blk.rs:155-279 | Main theorem with payloads: under requests that keep the device off the driver's memory, what the client sees is a run of the asynchronous disk, decided on in order and served in the client's window as before. |
| `DiskPayloads.DriverRunLifts` | virtio/block/src/blk.rs:116-153 | A run of the driver alone is a run of driver and device. |
| `DiskPayloads.HandleRingIsSystemRun` | virtio/block/src/blk.rs:122-153 | A whole wake-up is a run of driver and device, so the main theorems cover it. |
| `DiskPayloads.DrainIsSystemRun` | virtio/block/src/blk.rs:245-279 | So is the drain of an acknowledged interrupt. |
| `PendingTable.SetSlotTags` | virtio/block/src/blk.rs:239-253 | Setting one slot changes the tags held by the table by exactly that slot's tag. |
| `PendingTable.SetSlotCount` | virtio/block/src/blk.rs:166-167 | Setting one slot changes the number of occupied slots by exactly that slot. |
| `Nets.EveryRun` | virtio/net/src/net.rs:124-281 | In every reachable state, whatever the device writes into the used rings, per queue: free + 2 · pending + 2 · rejected = 128, a slot is occupied exactly while its index heads a chain in flight, and every request fetched is completed, in flight or still to be submitted, exactly once. With the payloads of receives: `NetPayloads.EveryRunWithPayloads`. |
| `Nets.SubmitOutcome` | virtio/net/src/net.rs:156-221 | The exact outcome: the free count is even, so the second allocation never fails after the first; OutOfMemory if and only if no pair is left; a request that fails the window check is rejected and costs two descriptors; an accepted one goes into an empty slot. |
| `Nets.SubmitInWindow` | virtio/net/src/net.rs:163-173 | With a pair left and sums within 64 bits, exactly the requests inside the window are accepted, the others rejected. |
| `Nets.PayloadIsBuffer` | virtio/net/src/net.rs:173-209 | The payload descriptor of an accepted request names the translated buffer and the length asked for. |
| `Nets.HeaderIsAnnounced` | virtio/net/src/net.rs:177-218 | The head announced is a packet header of ten bytes, sixteen apart from the first page on for receiving and from the second for sending, linked to the payload; the device may write both exactly when receiving. |
| `Nets.PayloadIsInWindow` | virtio/net/src/net.rs:173-209 | It lies in the memory behind the window if the request lies in the window. |
| `Nets.WrappedRequestIsAccepted` | virtio/net/src/net.rs:167-173 | A concrete request far outside the window is accepted because its end wraps round, and the device is sent outside the memory behind it. |
| `Nets.SubmitKeepsSound` | virtio/net/src/net.rs:156-221 | Accepted or refused, a submission keeps the account of its queue. |
| `Nets.PopEntryKeeps` | virtio/net/src/net.rs:233-280 | A completion empties its own slot and frees its own chain; any other used element leaves slots and chains as they were. |
| `Nets.WalkIsOwnChain` | virtio/net/src/net.rs:245-256 | The freeing walk visits exactly the two descriptors of its own request. |
| `Nets.DeviceKeeps` | virtio/net/src/net.rs:233-280 | No invariant depends on the used rings' contents. |
| `Nets.HandleRingKeeps` | virtio/net/src/net.rs:124-154 | A whole wake-up keeps the invariant of both queues. |
| `Nets.WakeUp` | virtio/net/src/net.rs:124-154 | A wake-up takes the first sixteen requests or as many as there are and submits them all. |
| `Nets.SubmitNextTakes` | virtio/net/src/net.rs:141-153 | Each submission takes the oldest fetched request and answers a refused one with -1 at once. |
| `Nets.OpcodePicksQueue` | virtio/net/src/net.rs:143-147 | Reads change the receive queue only, writes the transmit queue only, and anything else nothing. |
| `Nets.HandleRingIsRun` | virtio/net/src/net.rs:124-154 | A whole wake-up is a run of the driver's own single steps. |
| `Nets.HandleIrqIsRun` | virtio/net/src/net.rs:223-281 | So is an interrupt, so the theorems about crashes and accounts cover both. |
| `Nets.PopOneAdvances` | virtio/net/src/net.rs:234-262 | Each pop brings the driver one element closer to the device's index. |
| `NetDriver.NetPort.constructor` | virtio/net/src/net.rs:93-104 | A queue and its pending table after `init`: all free and empty, the last used index 0 and the two ring indices as found. |
| `NetDriver.NetPort.Submit` | virtio/net/src/net.rs:156-221 | The in-place submission, with both allocations before the address check. |
| `NetDriver.NetPort.Describe` | virtio/net/src/net.rs:180-209 | Header and payload descriptor as written; the header is 10 bytes. |
| `NetDriver.NetPort.PopEntry` | virtio/net/src/net.rs:233-258 | One used element of one queue: an id past the table ends the driver, an empty slot is ignored, an occupied one is completed and its chain freed. |
| `Nets.PostedLengthReadsBack` | virtio/net/src/net.rs:238-243 | From the number posted for a received packet the client recovers the used length exactly if the device counted a whole header; it is the packet's length below 2 GiB and negative from there on. |
| `NetDevices.CrashMeansWildId` | virtio/net/src/net.rs:234-235 | Over every run the driver has ended if and only if it took a used element with an id of 128 or more. |
| `NetDevices.WildIdEndsDriver` | virtio/net/src/net.rs:234-235 | It happens, in two steps from every state: the device publishes one id, the driver takes it and has ended exactly if it is 128 or more. |
| `NetDevices.KeepingToHeadsNeverCrashes` | virtio/net/src/net.rs:211-280 | A device that publishes only heads it took from the avail rings, in any order and as often as it likes, never ends the driver. With filled buffers: `FillingBuffersNeverCrashes`. |
| `NetDevices.SubmitIsTame` | virtio/net/src/net.rs:160-218 | Every head announced is an index of the pending table, so far as the device has not consumed it, index wrap-around included. |
| `NetDriver.NetPort.TranslateAddr` | virtio/net/src/net.rs:163-176 | The window check and translation; with sums within 64 bits it accepts exactly the ranges inside the window. |
| `NetDriver.VirtIONet.constructor` | virtio/net/src/net.rs:77-112 | After `init` both queues are free and empty and the invariant holds. |
| `NetDriver.VirtIONet.SubmitOne` | virtio/net/src/net.rs:143-147 | The opcode picks the queue; any other opcode is refused. |
| `NetDriver.VirtIONet.HandleRing` | virtio/net/src/net.rs:124-154 | A wake-up submits at most sixteen requests, completes failures with -1, and keeps the invariant. |
| `NetDriver.VirtIONet.PopCompletions` | virtio/net/src/net.rs:233-280 | One queue is drained to its end, and the drain ends. |
| `NetDriver.VirtIONet.HandleIrq` | virtio/net/src/net.rs:223-281 | An acknowledged interrupt drains the receive queue and then the transmit queue: the completions of the receive elements in ring order, then those of the transmit elements, and neither ring has anything left unless the driver has ended. |
| `NetDrains.HandleIrqPosts` | virtio/net/src/net.rs:223-281 | The same of the value: which results, in which order, when the driver ends, and nothing without an acknowledgement. |
| `NetDrains.PopAllPosts` | virtio/net/src/net.rs:233-280 | A drain posts one result for each unread element that names a request, in ring order and under its tag: 0 for a transmission, the length less ten header bytes for a reception; it stops at the first id of 128 or more. |
| `NetDrains.ResultsFreePairs` | virtio/net/src/net.rs:244-280 | Each result posted has freed the two descriptors of its request. |
| `NetLosses.ClosedForGood` | virtio/net/src/net.rs:160-173 | Once 64 requests of one queue have been rejected, nothing that client, driver or device do opens it again: no descriptor is free, nothing is in flight, and every request is refused and changes nothing. |
| `NetLosses.SixtyFourRejectionsCloseQueue` | virtio/net/src/net.rs:160-173 | It happens: from the initial state, any 64 requests outside the window close their queue, after every later run as well. |
| `NetLosses.RejectAll` | virtio/net/src/net.rs:160-173 | Requests outside the window are rejected one after the other, each at the cost of two descriptors. |
| `NetExchanges.EveryUseCompletes` | virtio/net/src/net.rs:211-280 | With a device that publishes each head it took once, in every reachable state and on both queues: at most 64 heads wait in the avail ring or the used ring of 128, and the next used element completes the request it names, under its own tag. |
| `NetExchanges.RoomInRings` | virtio/net/src/net.rs:211-218 | At most 64 heads are announced and not taken, so `submit` never overwrites one. |
| `NetExchanges.PopCompletes` | virtio/net/src/net.rs:233-258 | The element at the front of the used ring belongs to a request in flight; none is ignored and none ends the driver. |
| `NetExchanges.SubmitKeeps` | virtio/net/src/net.rs:156-221 | A submission, accepted or not, keeps every head in exactly one of avail ring, device and used ring. |
| `NetPayloads.InvisibleIffMissesDriver` | virtio/net/src/net.rs:203-208 | What the device writes into a buffer never shows in either queue if and only if the buffer misses both. |
| `NetPayloads.AcceptedReceiveIsSafeExactly` | virtio/net/src/net.rs:163-209 | For every accepted receive: whatever the device fills its buffer with, the driver does not change, if and only if the translated buffer misses both queues. |
| `NetPayloads.WindowedIsHarmless` | virtio/net/src/net.rs:163-173 | A regular window apart from the driver's pages and sums within 64 bits keep every receive off the queues. |
| `NetPayloads.SubmitLeavesOthers` | virtio/net/src/net.rs:156-221 | A submission leaves slot and descriptors of every other request in flight unchanged. |
| `NetPayloads.FinishLeavesOthers` | virtio/net/src/net.rs:244-256 | So does the completion of another request. |
| `NetPayloads.PayloadsAreInvisible` | virtio/net/src/net.rs:124-281 | Under harmless requests a run in which the device also fills receive buffers, with anything, is the run without these steps. |
| `NetPayloads.EveryRunWithPayloads` | virtio/net/src/net.rs:124-281 | So the account of both queues balances after every run with payloads. |
| `NetPayloads.FillingBuffersNeverCrashes` | virtio/net/src/net.rs:211-280 | A device that publishes only heads it took, and fills their buffers with anything, never ends the driver under harmless requests. |
| `NetPayloads.ReceiveOntoQueueIsAccepted` | virtio/net/src/net.rs:174-176 | Without a window a receive onto the receive queue itself is accepted in every sound state with room. |
| `NetPayloads.WrappedReceiveOntoQueueIsAccepted` | virtio/net/src/net.rs:167-173 | So is one whose end wraps, with a window apart from the driver's pages. |
| `NetPayloads.ReceiveOntoQueueBreaksAccount` | virtio/net/src/net.rs:174-209 | It happens: one such receive from a fresh driver, filled with zeros, ends in a state without an account. |
| `Gpu.CommandLeavesIdle` | virtio/gpu/src/gpu.rs:126-158 | After an exchange the control queue is again all free with nothing in flight, whatever used element the device wrote. |
| `Gpu.AnnounceKeeps` | virtio/gpu/src/gpu.rs:126-149 | From an idle queue both allocations succeed, and the announced chain leads from the command buffer, to be read in the command's length, to the reply buffer, to be written in the reply's. |
| `Gpu.ReclaimKeeps` | virtio/gpu/src/gpu.rs:156-158 | Freeing head and reply descriptor returns both, and only them. |
| `Gpu.CutIsUnique` | virtio/gpu/src/gpu.rs:199-279 | The prefix of commands that `set_scanout` issues is determined by the device's replies. |
| `Gpu.VirtIOGpu.constructor` | virtio/gpu/src/gpu.rs:74-88 | The control queue starts idle exactly if the used index found in its memory, which is not cleared, is zero and the avail index is the one the device starts from. |
| `Gpu.StaleIndexSkipsWait` | virtio/gpu/src/gpu.rs:149-156 | A command on a fresh queue is waited for if and only if that index was zero; otherwise the driver goes on before the device has answered, with what `SendCommand` and `DetectDisplay` say. |
| `Gpu.VirtIOGpu.SendCommand` | virtio/gpu/src/gpu.rs:110-163 | Never out of descriptors: the device, which takes a chain only if both lengths are those of the command and its reply, receives exactly this command, once, its own reply is returned, and all 16 descriptors are free again. On a stale used index the reply buffer is returned as just cleared, before the device has received anything. |
| `Gpu.VirtIOGpu.SetScanout` | virtio/gpu/src/gpu.rs:199-279 | Create, attach, set-scanout, transfer, flush in this order, cut exactly at the first refusal among the first three; the error says whether it was cut. |
| `Gpu.ScanoutCommands` | virtio/gpu/src/gpu.rs:203-277 | Every field of the five commands. |
| `Gpu.VirtIOGpu.Flush` | virtio/gpu/src/gpu.rs:177-197 | Transfer and flush of the rectangle with its byte offset, whatever the replies. |
| `Gpu.FlushCommands` | virtio/gpu/src/gpu.rs:178-195 | Both commands of a flush name its rectangle, and the transfer starts at the byte of its first pixel, modulo 2^64. |
| `Gpu.PixelsHaveOwnBytes` | virtio/gpu/src/gpu.rs:183-239 | Pixels of a frame have four bytes of the backing each, and no two share one. |
| `Gpu.RequestUnpacks` | virtio/gpu/src/gpu.rs:39-47 | A flush request carries x and y in its offset and width and height in its address, and is answered with 0. |
| `Gpu.OthersRefused` | virtio/gpu/src/gpu.rs:48-51 | Any other request gets -1 and no command. |
| `Gpu.VirtIOGpu.HandleRing` | virtio/gpu/src/gpu.rs:36-57 | All queued requests are served: the device receives their commands in order, and each is completed once, in order. |
| `Gpu.VirtIOGpu.DetectDisplay` | virtio/gpu/src/gpu.rs:92-105 | The display size is the device's own when it answers, 1280 by 720 otherwise; on a stale used index always 1280 by 720. |
| `Gpu.VirtIOGpu.AwaitReply` | virtio/gpu/src/gpu.rs:152-154 | The spin ends when the device has answered, and sees the answer to the command announced; on a stale used index it ends at once and the device is as it was. |
| `Layout.PartsAreApart` | virtio/common/src/queue.rs:73-90 | For every queue size descriptor table, avail ring and used ring follow one another without overlap. |
| `Layout.PartsAreAligned` | virtio/common/src/queue.rs:84-90 | They are aligned to 16, 2 and 4 bytes if the queue is to 16. |
| `Layout.SlotsAreInTheirParts` | virtio/common/src/queue.rs:124-163 | Whatever the ring index, a slot access stays inside its ring and off the index field. |
| `Layout.SlotsAreApart` | virtio/common/src/queue.rs:130-159 | Two ring slots share a byte exactly when they are the same slot. |
| `Layout.BlockAreasAreApart` | virtio/block/src/blk.rs:174-195 | The 64 headers, 64 status bytes and the queue share no byte of the four pages. |
| `Layout.BlockModelUsesThem` | virtio/block/src/blk.rs:193-195 | Those are the addresses the driver puts into its descriptors. |
| `Layout.NetAreasAreApart` | virtio/net/src/net.rs:94-181 | The 256 packet headers and both queues share no byte of the four pages. |
| `Layout.GpuAreasAreApart` | virtio/gpu/src/gpu.rs:79-119 | Both queues, the command page and the reply page share no byte. |
| `Transport.HalvesJoin` | virtio/common/src/transport.rs:153-166 | An address survives being written in two 32-bit halves. |
| `Transport.VirtIOTransport.SetupQueue` | virtio/common/src/transport.rs:172-185 | Afterwards the device looks for table, avail ring and used ring exactly where the driver keeps them, the queue is ready, and other queues are as before. |
| `Uarts.EveryRun` | uart/ns16550a/src/ns16550a/mod.rs:145-403 | Over every run: bytes given to the client followed by the buffered ones are the hardware bytes with the dropped ones deleted; `irq_rx_bytes` counts them; read = kept + dropped; the buffer never exceeds 4096 and a byte is dropped exactly when it is at 4096; sent bytes are a prefix of what the client wrote; once a READ is registered its ring exists and read results add up to the bytes pushed since. |
| `Uarts.ActionKeeps` | uart/ns16550a/src/ns16550a/mod.rs:145-403 | Every single action keeps that invariant. |
| `Uarts.ReceiveKeeps` | uart/ns16550a/src/ns16550a/mod.rs:215-227 | Keeping or dropping a byte keeps order and counters of the receive side. |
| `Uarts.FlushKeeps` | uart/ns16550a/src/ns16550a/mod.rs:249-306 | Forwarding keeps order, counters and read accounting. |
| `Uarts.FlushLeaves` | uart/ns16550a/src/ns16550a/mod.rs:253-296 | Forwarding leaves the buffer empty or the client's ring full, and moves bytes without changing their order. |
| `Uarts.FlushMoves` | uart/ns16550a/src/ns16550a/mod.rs:249-306 | As many bytes as the ring has room for move, in order, and that many are reported to the waiting reader under its tag. |
| `Uarts.TransmitKeeps` | uart/ns16550a/src/ns16550a/mod.rs:366-377 | Sending keeps what was written equal to what was sent and what waits. |
| `Uarts.AnswersMatchRequests` | uart/ns16550a/src/ns16550a/mod.rs:308-336 | Each request has one answer, in order and under its own tag: a write without an address reports how many bytes it sent, 1024 at most of what the writes before it left, one with an address its length, a read an empty completion, and any other is refused. |
| `Uarts.ReaderIsLast` | uart/ns16550a/src/ns16550a/mod.rs:320-322 | The last READ is the one that waits. |
| `UartDriver.Hardware.ReadLsr` | uart/ns16550a/src/ns16550a/mod.rs:405-420 | The line status: data is ready exactly when the FIFO holds a byte, the transmitter is ready once it is no longer busy. |
| `UartDriver.Ns16550a.constructor` | uart/ns16550a/src/ns16550a/mod.rs:46-58 | A driver with nothing set up, whose log is empty. |
| `UartDriver.Ns16550a.SetupBuffers` | uart/ns16550a/src/ns16550a/mod.rs:64-89 | The two rings of the shared page, both empty; a second setup empties them again. |
| `UartDriver.Ns16550a.GetChar` | uart/ns16550a/src/ns16550a/mod.rs:405-413 | The oldest byte of the FIFO, or none exactly when the FIFO is empty. |
| `UartDriver.Ns16550a.PutChar` | uart/ns16550a/src/ns16550a/mod.rs:415-420 | The byte goes out only after the transmitter was seen empty; the wait ends. |
| `UartDriver.Ns16550a.Accept` | uart/ns16550a/src/ns16550a/mod.rs:215-227 | A byte is buffered below 4096 and counted as dropped at 4096. |
| `UartDriver.Ns16550a.DrainRxFifo` | uart/ns16550a/src/ns16550a/mod.rs:202-247 | Reads until the FIFO is empty or the budget of kept bytes is reached; every byte read is kept or dropped in order, dropped bytes do not count, and the finite input ends the loop. |
| `UartDriver.Ns16550a.MoveToRing` | uart/ns16550a/src/ns16550a/mod.rs:253-296 | Slice by slice, exactly what fits moves to the client's ring, in order. |
| `UartDriver.Ns16550a.ProcessRxRing` | uart/ns16550a/src/ns16550a/mod.rs:249-306 | Forwards what fits and reports that many bytes to a waiting reader. |
| `UartDriver.Ns16550a.SendChunk` | uart/ns16550a/src/ns16550a/mod.rs:358-377 | One chunk leaves the ring and goes to the transmitter byte by byte. |
| `UartDriver.Ns16550a.ProcessTxRing` | uart/ns16550a/src/ns16550a/mod.rs:352-403 | Exactly the first min(budget, ring length) bytes go out, in order, whatever the interleaved receive side does. |
| `UartDriver.Ns16550a.GiveRxAChance` | uart/ns16550a/src/ns16550a/mod.rs:379-382 | Between chunks the receive side drains up to 64 bytes and touches nothing of the transmit side. |
| `UartDriver.Ns16550a.HandleEvent` | uart/ns16550a/src/ns16550a/mod.rs:163-175 | By bits 0 to 3 of the identification: 4, 6 and 12 take bytes from the FIFO until 512 were kept or it is empty, 2 sends the first 512 bytes of the transmit ring or all of it, anything else changes nothing. |
| `UartDriver.Ns16550a.NextEvent` | uart/ns16550a/src/ns16550a/mod.rs:158-175 | The identification read is handled as its event, unless its lowest bit says that there is none. |
| `UartDriver.Ns16550a.HandleEvents` | uart/ns16550a/src/ns16550a/mod.rs:145-177 | The identifications read are those of the events handled, each handled as its own, in order; at most 64, and a last one with the lowest bit set if fewer. |
| `UartDriver.Ns16550a.HandleIrq` | uart/ns16550a/src/ns16550a/mod.rs:145-183 | One interrupt: the events read are handled one after the other, then the buffer is forwarded; for each transmit event 512 bytes go out as far as the ring has them, from its front, and no others; at the end the buffer is empty or the client's ring is full. |
| `Uarts.EventsSend` | uart/ns16550a/src/ns16550a/mod.rs:145-177 | Over any list of handled events exactly min(512 · transmit events, ring length) bytes go out, from the front and in order. |
| `UartDriver.Ns16550a.HandleCq` | uart/ns16550a/src/ns16550a/mod.rs:344-350 | What is buffered is forwarded; then the buffer is empty or the client's ring is full. |
| `UartDriver.Ns16550a.ServeWrite` | uart/ns16550a/src/ns16550a/mod.rs:313-318 | A write sends up to 1024 bytes and is answered with their number, or with its length when it names an address. |
| `UartDriver.Ns16550a.ServeRead` | uart/ns16550a/src/ns16550a/mod.rs:320-327 | A read is registered, what is buffered is forwarded, and an empty completion posted. |
| `UartDriver.Ns16550a.HandleSq` | uart/ns16550a/src/ns16550a/mod.rs:308-342 | Every queued request is answered once, in order; the writes send what they may from the front of the ring; the last reader waits. |
| `Ramdisks.RejectedIffOffDisk` | sys/ramdisk/src/driver.rs:165-168 | A well-addressed, aligned, supported request is rejected if and only if its blocks are not all on the disk, exactly when the range check is not deceived by wrap-around; within 64 bits it is accepted if and only if off + len / block size is at most the capacity. |
| `Ramdisks.WrapDeceivesRangeCheck` | sys/ramdisk/src/driver.rs:165-168 | A concrete sector number past the end that the wrapped product brings back to sector 0: the write is accepted and overwrites it. |
| `Ramdisks.FaultsExactly` | sys/ramdisk/src/driver.rs:123-194 | Exactly which requests make the driver leave the disk or the buffer: any on a zero block size, and transfers that pass every check although the end of the client's range or of the disk range wraps round. |
| `Ramdisks.WrappedAddressFaults` | sys/ramdisk/src/driver.rs:141-187 | A concrete write at a client address just below 2^64 passes the window check and is copied from outside the buffer. |
| `Ramdisks.PlaceIsInBuffer` | sys/ramdisk/src/driver.rs:141-152 | What passes the window check lies in the shared buffer if and only if its end does not wrap alone. |
| `Ramdisks.NoFaultWithin64Bits` | sys/ramdisk/src/driver.rs:123-194 | In particular no fault with a block size above zero and sums within 64 bits. |
| `Ramdisks.EveryByte` | sys/ramdisk/src/driver.rs:170-190 | Every byte after a request: an accepted read puts the disk's bytes from off · block size on at addr - client address of the buffer, an accepted write puts the buffer's there; all else is unchanged. |
| `Ramdisks.OutcomeWithin64Bits` | sys/ramdisk/src/driver.rs:123-194 | Within 64 bits the outcome of every request: whole blocks inside the window and on the disk are transferred (or do nothing for a sync), of another kind not supported, and all others invalid; no range inside the window is rejected by the window check. |
| `Ramdisks.RejectedExactly` | sys/ramdisk/src/driver.rs:125-168 | For all numbers, wrapped or not, exactly which requests the checks reject. |
| `Ramdisks.UnwrittenByteStays` | sys/ramdisk/src/driver.rs:170-190 | A byte of the disk changes only where an accepted write goes. |
| `Ramdisks.OthersChangeNothing` | sys/ramdisk/src/driver.rs:125-193 | Rejected requests and syncs change nothing. |
| `Ramdisks.ReplyIsLength` | sys/ramdisk/src/driver.rs:170-190 | A transfer reports its length as a 32-bit number with sign: 2 GiB and more turn negative. |
| `Ramdisks.ServeAnswersInOrder` | sys/ramdisk/src/driver.rs:106-121 | Requests are answered in order on the disk the earlier ones left; without a fault all are. |
| `Ramdisks.ServeAppend` | sys/ramdisk/src/driver.rs:106-121 | Serving two batches is serving their concatenation. |
| `Ramdisks.SparedByteStays` | sys/ramdisk/src/driver.rs:123-194 | A byte that no request of a run writes is unchanged by the run. |
| `Ramdisks.ReadReturnsLastWrite` | sys/ramdisk/src/driver.rs:123-194 | A read delivers at the reader's address what the last write to the same blocks stored from the writer's, across any run that spares them. |
| `Ramdisks.BytesAreBlocks` | sys/ramdisk/src/driver.rs:26-28 | A whole number of blocks fits in bytes exactly when it fits in blocks. |
| `RamdiskDriver.Ramdisk.ProcessSqe` | sys/ramdisk/src/driver.rs:123-194 | The in-place request, check by check in the source's order, is the pure one. |
| `RamdiskDriver.Ramdisk.Copy` | sys/ramdisk/src/driver.rs:172-187 | The destination range becomes the source range, all else stays. |
| `RamdiskDriver.Ramdisk.Move` | sys/ramdisk/src/driver.rs:171-190 | The transfer in either direction, or a fault where the copy would leave its memory. |
| `RamdiskDriver.Ramdisk.HandleIo` | sys/ramdisk/src/driver.rs:106-121 | Final disk and buffer are the fold over the queued requests, completions carry their tags in order, and the ring is emptied unless a fault ends the driver. |
| `RamdiskDriver.Ramdisk.SetBlockSize` | sys/ramdisk/src/driver.rs:34-36 | Only the block size changes. |
| `RamdiskDriver.Completions` | sys/ramdisk/src/driver.rs:112-115 | One completion per answered request, under its own tag: the result, or the negated error code. |
| `PciConfig.CfgOffIsInjective` | bus/pci/src/driver.rs:112-118 | Two register offsets are equal exactly when bus, device, function and register are. |
| `PciConfig.FieldsDoNotOverlap` | bus/pci/src/driver.rs:112-114 | Or-ing the shifted fields is adding them, for the offset and for the unit address. |
| `PciConfig.WriteChangesOnlyItsHalf` | bus/pci/src/driver.rs:137-148 | Writing a half-word changes that half-word and nothing else of its word. |
| `PciConfig.BytesOfWord` | bus/pci/src/driver.rs:131-135 | The four bytes of a word that register numbers name, by shift and mask. |
| `PciConfig.HalvesOfWord` | bus/pci/src/driver.rs:125-129 | Its two half-words. |
| `PciConfig.PlaceInWord` | bus/pci/src/driver.rs:131-135 | Of a register number only the place in its aligned word matters. |
| `PciConfig.HalfInWord` | bus/pci/src/driver.rs:125-129 | For a half-word only whether it is the upper one. |
| `PciConfig.EnableByHalf` | bus/pci/src/driver.rs:162-168 | The command update by half-words sets I/O enable and clears INTx disable in the word and nothing else; when nothing is written the word was so already. |
| `PciConfig.DecodeIsBySlot` | bus/pci/src/driver.rs:199-245 | The sequential decoder gives each slot's region in slot order, each slot judged by itself: none for the upper half of a 64-bit register, 32 bits for a 64-bit type in the last slot. |
| `PciConfig.AtSlot` | bus/pci/src/driver.rs:199-245 | At most one region per slot, none at an upper half. |
| `PciConfig.DecodeInvertsEncoding` | bus/pci/src/driver.rs:199-245 | Decoding registers as firmware programs them gives back their non-zero regions (section 6.2.5.1 of PCI Local Bus 3.0). |
| `PciScan.ReportIsSoundAndComplete` | bus/pci/src/driver.rs:350-375 | The report has one node for each present function that is function 0 or belongs to a multifunction device, provided function 0 is present, and no other; unit addresses strictly ascend. |
| `PciScan.ListedBy` | bus/pci/src/driver.rs:350-375 | What is listed, by the words of the window: vendor half-words of the function and of function 0 not all ones, and bit 23 of the device's header word for the others. |
| `PciScan.RegionsReported` | bus/pci/src/driver.rs:199-245 | The regions of a node are those of the words 4 to 9, each register judged by itself, or 4 and 5 for a bridge (type 1); without any, a serial function has the start of the I/O window. |
| `PciScan.ProgrammedRegionsReported` | bus/pci/src/driver.rs:199-245 | An ordinary function whose six registers were programmed with a list of regions is reported with these regions. |
| `PciScan.FieldsReported` | bus/pci/src/driver.rs:252-270 | The identification fields of a node, by the bits of the function's first four words. |
| `PciScan.InterruptReported` | bus/pci/src/driver.rs:290-300 | The configured line if there are a pin and a line that is neither 0 nor 255; otherwise the swizzled line of device and pin on the platform's bus, and none elsewhere. |
| `PciScan.IdentifiesBy` | bus/pci/src/driver.rs:150-197 | A function is present, has siblings, or is the serial device by these bits of its words. |
| `PciScan.EveryWord` | bus/pci/src/driver.rs:150-188 | A scan changes of every word of the window only bits 0 and 10 of the command words of listed serial functions. |
| `PciScan.CommandDoesNotMatter` | bus/pci/src/driver.rs:247-348 | Nothing that is reported depends on the command and status word, which the scan rewrites. |
| `PciScan.SeenAsBefore` | bus/pci/src/driver.rs:350-375 | What the scan sees of a function is what was there before the scan. |
| `PciScan.ReportSkips` | bus/pci/src/driver.rs:359-367 | Functions of an absent device, and others of a single-function one, are not reported. |
| `PciScan.FunctionStep` | bus/pci/src/driver.rs:247-348 | Visiting one function reports it exactly if it is present and enables it exactly if it is the serial device. |
| `PciScan.WriteIsLocal` | bus/pci/src/driver.rs:144-147 | A write to one word changes one function's space. |
| `PciScan.ScanStaysInWindow` | bus/pci/src/driver.rs:81-96 | The buses scanned fit the mapped window exactly when the window holds a whole bus; below that, bus 0 is scanned beyond it. |
| `PciScan.SwizzleSpreadsPins` | bus/pci/src/platform.rs:57-73 | The four pins of a device go to four lines, and one device further they rotate by one. |
| `PciScan.KnownPlatforms` | bus/pci/src/platform.rs:25-47 | The two known platforms by the address of the window, and none otherwise. |
| `PciScan.BusesScanned` | bus/pci/src/driver.rs:81-96 | One bus at least, at most 256, and between these as many as fit the window. |
| `PciDriver.PciBusDriver.ReadU32` | bus/pci/src/driver.rs:120-123 | The word at the offset is the function's register word. |
| `PciDriver.PciBusDriver.ReadU16` | bus/pci/src/driver.rs:125-129 | The half-word of the aligned word that the register names. |
| `PciDriver.PciBusDriver.ReadU8` | bus/pci/src/driver.rs:131-135 | The byte of the aligned word that the register names. |
| `PciDriver.PciBusDriver.WriteU16` | bus/pci/src/driver.rs:137-148 | One half-word of configuration space changes. |
| `PciDriver.PciBusDriver.EnsureSerialIntxEnabled` | bus/pci/src/driver.rs:150-188 | For the QEMU serial function the command word is enabled, for any other nothing changes. |
| `PciDriver.PciBusDriver.DevicePresent` | bus/pci/src/driver.rs:190-193 | The vendor half-word is not all ones. |
| `PciDriver.PciBusDriver.IsMultifunction` | bus/pci/src/driver.rs:195-197 | Bit 7 of the header type of function 0. |
| `PciDriver.PciBusDriver.ParseBars` | bus/pci/src/driver.rs:199-245 | The loop returns what the recursive decoder does on the registers of the function's header type, and ends; which these are is `RegionsReported`. |
| `PciDriver.PciBusDriver.ParseBar` | bus/pci/src/driver.rs:204-242 | One round of it, one or two registers. |
| `PciDriver.PciBusDriver.FindMmio` | bus/pci/src/driver.rs:272-288 | The decoded regions, or the start of the I/O window for a serial function without any. |
| `PciDriver.PciBusDriver.FindIrq` | bus/pci/src/driver.rs:290-300 | The configured line if pin and line are valid, the platform's routing otherwise. |
| `PciDriver.PciBusDriver.BuildDescNode` | bus/pci/src/driver.rs:247-348 | The node of a present function, with the serial fallback and the interrupt choice, none for an absent one; the command word is enabled exactly for a present serial function. |
| `PciDriver.PciBusDriver.Scan` | bus/pci/src/driver.rs:350-375 | The scan returns the report on the configuration space as it was, and leaves it changed in the command words of listed serial functions and nowhere else. |
| `Crs.ParseInvertsEncoding` | platform/acpi/src/probe/aml.rs:128-172 | For every list of well-formed descriptors and whatever follows: the memory ranges in order, each mask's bits ascending, then the rest. |
| `Crs.EndTagEnds` | platform/acpi/src/probe/aml.rs:168-170 | The end tag ends the list, and nothing behind it matters. |
| `Crs.EveryBuffer` | platform/acpi/src/probe/aml.rs:128-172 | Every buffer is a well-formed list followed by bytes where the parser stops or reads out of bounds, and it reports exactly that list and a cut-off interrupt mask. |
| `Crs.CrashesExactly` | platform/acpi/src/probe/aml.rs:128-172 | The parser reads out of bounds if and only if the buffer is a well-formed list followed by a memory range descriptor with fewer than nine bytes of data, or by an interrupt descriptor that ends before its mask. |
| `Crs.ShortDescriptorsCrash` | platform/acpi/src/probe/aml.rs:142-159 | The shortest buffers of either kind. |
| `Crs.BitsAreSetBits` | platform/acpi/src/probe/aml.rs:160-164 | The interrupts of a mask are exactly its set bits, strictly ascending. |
| `Crs.MaskIsSum` | platform/acpi/src/probe/aml.rs:160-164 | The powers of two of the interrupts found make up the mask. |
| `Crs.Memory32ReadsBack` | platform/acpi/src/probe/aml.rs:142-149 | Base and size come back from their little-endian bytes, whatever the descriptor's length. |
| `Crs.SmallReadsBack` | platform/acpi/src/probe/aml.rs:151-171 | Interrupt masks are read and other small descriptors stepped over, length by length. |
| `Crs.StepIsResource` | platform/acpi/src/probe/aml.rs:128-171 | Every step of the parser over bytes in the buffer is over some well-formed descriptor. |
| `Crs.Le32RoundTrip` | platform/acpi/src/probe/aml.rs:144-145 | Four bytes carry 32 bits there and back. |
| `Crs.ParseBuffer` | platform/acpi/src/probe/aml.rs:126-172 | The loop, with every bound it checks and those it does not, computes the recursive parse, and ends. |
| `Crs.OneRound` | platform/acpi/src/probe/aml.rs:129-171 | One round of it at any index. |
| `Crs.SetBits` | platform/acpi/src/probe/aml.rs:160-164 | The inner loop collects the bits of a mask. |
| `DeviceTree.FlatteningIsInvertible` | platform/dtb/src/parser.rs:94-137 | The list has one entry per node, every parent index is smaller than its entry's, and rebuilding from parent indices alone gives the tree back, child order included. |
| `DeviceTree.SubtreesAreBlocks` | platform/dtb/src/parser.rs:120-125 | Each entry heads a contiguous block that is exactly itself and its descendants, in preorder, and carries its own node's name, compatible strings, sized ranges, interrupts and unit address. |
| `DeviceTree.ParentsInTree` | platform/dtb/src/parser.rs:120-125 | Within a block each parent is an earlier entry of the block. |
| `DeviceTree.RebuildForest` | platform/dtb/src/parser.rs:123-125 | The search for children recovers a forest of siblings in order, passing over their descendants. |
| `DeviceTree.DescendantsAreBlock` | platform/dtb/src/parser.rs:120-125 | An entry descends from another exactly if it lies in the other's block. |
| `DeviceTree.FlattenSnoc` | platform/dtb/src/parser.rs:123-125 | One more sibling appends its own block. |
| `DeviceTree.DeviceList.ParseNode` | platform/dtb/src/parser.rs:94-126 | The recursive push appends the preorder flattening of the node and leaves earlier entries alone. |
| `DeviceTree.DeviceList.ParseBlob` | platform/dtb/src/parser.rs:128-137 | A rejected blob is an error, one without root gives no entries, any other the flattening of its root. |
| `DeviceTree.ParseDesc` | platform/dtb/src/parser.rs:99-119 | The sized registers and the interrupts, in order. |
| `DeviceTree.SizedReadsBack` | platform/dtb/src/parser.rs:103-112 | Ranges with sizes come back as they are and in order; ranges without are dropped, wherever they stand. |
| `UnitAddresses.UnitAddrReadsBack` | platform/dtb/src/parser.rs:6-10 | An address in hexadecimal behind the last '@', with or without 0x, reads back if it fits 64 bits and gives none otherwise. |
| `UnitAddresses.NoUnitAddr` | platform/dtb/src/parser.rs:6-10 | Without '@' there is no unit address. |
| `UnitAddresses.CapitalsReadAlike` | platform/dtb/src/parser.rs:6-10 | Capital digits count like small ones. |
| `UnitAddresses.SpoiledDigits` | platform/dtb/src/parser.rs:6-10 | Anything but a digit spoils the address. |
| `UnitAddresses.PrefixesIgnored` | platform/dtb/src/parser.rs:6-10 | A repeated 0x is dropped, and so is one plus sign. |

## Left out

- Memory fences, volatile access and weak memory: publishing a ring entry is one step.
- Ring indices in fresh DMA memory: `VirtQueue::new` does not clear them. The constructors of `VirtQueueDriver`, `BlockDriver` and `NetDriver` take them as they are; the refinement in `BlockDisk` and the runs of the GPU driver start from rings without pending entries.
- Paths before initialisation: no queue, no ring server, a null DMA address, an unset client buffer of the ramdisk; these return `NotInitialized`, do nothing, or use the client address as it is.
- Replacing a ring server, or the shared buffer of a virtio driver or the ramdisk, while requests are in flight, and failures of `complete`.
- Panics on arithmetic overflow: sums and products of addresses wrap, as in a release build.
- The protocol numbers of opcodes and error codes, which the system library defines; they are symbols, or a parameter of the ramdisk.
- Feature negotiation, device status and configuration reads of the virtio drivers, except display detection of the GPU; packet header contents, which are always zero; the cursor queue beyond its place in memory.
- Statistics other than received, dropped and sent bytes, and all logging.
- The internals of `IoUringServer`, `ShmRingBuffer`, `SharedMemory` and of the `fdt`, `aml` and `acpi` crates; the split of the UART buffer into two slices is an arbitrary non-empty prefix.
- PCI status bits that clear when written as one, and registers that ignore writes: configuration space is plain memory. Names, `compatible` strings and properties of PCI nodes, which only format the modelled fields.
- Tags, properties and the bus guess of device-tree and ACPI nodes; EISA id conversion and the search of the ACPI namespace.
- `queue_size_in_bytes`, which nothing calls and which ignores alignment padding.
- MADT, HPET and MCFG probes, SDHCI, GPIO, the real-time clock, the loop device and virtio-mmio probing: register access or single branches.
- The `main.rs`, `layout.rs` and `server.rs` files: capabilities, message dispatch, page mapping and registration.
- Device writes to memory it was not given at all. Its writes are the used ring and index, status bytes, and the buffers of the requests it holds; packet headers, which no driver reads, are not kept. A payload that turns a link of the descriptor table into no index of the table is left aside; the driver would read behind the table.
- A GPU that answers between the notification and the driver's first look at a stale used index; the model's device looks while the driver waits.
- BlockDriver.VirtIOBlk.SubmitVirtioRequest: does not model the division by zero of a device that reports a block size of zero; the driver object is then not valid from the start. The ramdisk's block size may be zero in the model and then ends the driver.
- PciDriver.PciBusDriver.Scan: is modelled on windows of whole buses, because reads behind a smaller window have no value; `ScanStaysInWindow` says exactly when that happens.
- BlockDisk.BlockRefinesDisk: says what may happen, not that requests are eventually completed, because the device may stay silent.
- Nets.EveryRun: the network is not modelled beyond queues and completions, so it does not say which packets travel.
- UartDriver.Ns16550a.HandleEvents: does not say which event the chip reports, because the identification register is arbitrary.
