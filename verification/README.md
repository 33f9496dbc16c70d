# Verified model of the Master, Worker and Storage

A Query is a script that the Master schedules on Workers. Workers execute it against a paged memory that caches
the blocks of a Storage node, and Storage keeps versioned files (File:Tag) whose logical blocks are hard links to
physical blocks. This project models the parts of that system that are hard to get right and proves what they are
for. `dafny verify dfyconfig.toml` checks all of it.

**Paging (worker/src/memory).** `paging_model.dfy` has the memory manager's state as a value; a page's *view* is
its frame when the page is present and its Storage block otherwise. `memory_manager.dfy` is the code: the class
`MemoryManager` over page tables, a frame table and an array of physical memory, with the LRU scan and the CLOCK-M
passes as loops. `paging_theorems.dfy`, `replacement_model.dfy` and `flush_theorems.dfy` hold what each operation
keeps, `paging_runs.dfy` what sequences of steps amount to, and `paging_client.dfy` runs scripts of operations on
real managers: a flat byte store.

**Filesystem (storage/src/operations).** `fs_model.dfy` has the filesystem as a value (physical blocks, bitmap,
link targets, link counts, metadata, hash index) and each operation as a function that also says what a failure
leaves behind; `filesystem.dfy` is the code, proved equal to those functions. `fs_theorems.dfy`,
`fs_namespace.dfy`, `fs_commit.dfy`, `fs_commit_theorems.dfy` and `fs_commit_consistency.dfy` prove the operations
right; `fs_codes.dfy` says which refusal gets which code; `fs_runs.dfy` and `fs_view.dfy` treat whole runs;
`fs_limits.dfy`, `fs_space.dfy`, `fs_base.dfy` and `fs_stale.dfy` show exactly where the invariants end.

**Scheduling and the preemption handshake (master/src, worker/src).** `master_model.dfy` has the Master's tables
and handlers, `scheduler.dfy` the code, `master_theorems.dfy`, `master_effects.dfy`, `aging_theorems.dfy`,
`master_runs.dfy` and `master_limits.dfy` the proofs. `worker_model.dfy` has the critical sections of a Worker's
two threads, `worker.dfy` their code. `protocol.dfy` states what holds between the Master and one Worker, `system.dfy` puts the Master, all Workers and
the FIFO channels together, `carriers.dfy` shows that at most one place carries a query, `delivery.dfy` that exactly
one kind of step drops one, and `handshake_limits.dfy` that both kinds of loss happen.

**Supporting.** `lock_table.dfy` is the reference-counted table of File:Tag locks; `wire_model.dfy`,
`wire_theorems.dfy` and `wire_buffer.dfy` are the wire format and its growing buffer.

Where the code does not keep a property, the code is modelled as it is and the exact condition is proved:

- A copy-on-write unlinks before it looks for space (`FsTheorems.WriteKeepsConsistentIff`,
  `FsSpace.FullDiskBreaksConsistency`).
- Nothing removes entries of the hash index when a committed tag is deleted or truncated
  (`FsLimits.DeleteKeepsGoodIff`, `FsLimits.TruncateKeepsIndexIff`). With a stale index a COMMIT preserves contents
  exactly when the representatives do (`FsCommitTheorems.CommitPreservesContentIff`,
  `FsLimits.DeletingCommittedTagLosesBlock`), and it keeps the bitmap right, and so the filesystem consistent,
  exactly when no block moves to a free representative (`FsCommitConsistency.CommitKeepsConsistentIff`); otherwise a
  later write overwrites what a committed tag reads (`FsStale.StaleCommitIsOverwritten`).
- TRUNCATE accepts initial_file:BASE. Any size that leaves it a block is harmless; size 0 frees physical block 0,
  which new blocks are then still names of (`FsNamespace.TruncateBaseKeepsIff`, `FsBase.TruncatingBaseMixesFiles`).
- TAG to a file that was never created is refused with -1, because its directory is made without its parents
  (`FsLimits.ForkToNewFileFails`).
- Removing or shrinking a page table forgets mapped pages without freeing their frames
  (`FlushTheorems.DropLeaksIffPresent`), and with no mapped page left the CLOCK-M search does not end
  (`ReplacementModel.ClockSearchEndsIff`, `PagingClient.RemovalLeavesNoVictim`).
- END for a query that is not running leaves its worker in busy_list (`MasterTheorems.EndKeepsIff`), which a
  storage error brings about (`MasterLimits.StorageErrorRunBreaks`); EVICT from another worker than the
  assigned one is only logged (`MasterTheorems.EvictKeepsIff`, `MasterLimits.StrangerEvictRunBreaks`).
- The executor clears a preempt request that arrives before it begins (`Delivery.NotedRequestStaysIff`,
  `HandshakeLimits.PreemptRequestCanBeDropped`) and drops a query assigned while it leaves an ejected one
  (`Delivery.StepKeepsAccountedIff`, `HandshakeLimits.AssignedQueryCanBeDropped`).
- The aging thread reads its clock before it takes the lock, and converts a 64-bit count to int
  (`AgingTheorems.LateTickIff`, `AgingTheorems.TickAgesIff`, `AgingTheorems.LateTimestampDropsToZero`).
- The writers accept longer strings and data than the readers (`WireTheorems.TextReadableIff`,
  `WireTheorems.DataReadableIff`).

Hypotheses: a Worker's page size is Storage's block size; the digest is an abstract function, assumed not to
collide on the physical blocks a COMMIT finds, and only where a lemma says so; list_sort of the commons library returns a sorted permutation, and a
stable one only in `MasterRuns.NobodyOvertakes` and `MasterRuns.NobodyOvertakesInRun`; worker identifiers are
distinct, and a Query Control leaves once. A handler of the Master is one atomic step: most hold both mutexes, and
create_worker, create_query, the aging pass and the departure of a READY query hold the one of the only table they
change. A send succeeds or fails as a whole.

## Model

| member | source | states |
|---|---|---|
| `PagingClient.RunScript` | worker/src/memory/memory_manager.c:342-440 | Any script of reads, writes, flushes and table creations on a memory manager, whatever each returns: it ends with the bytes of a flat store after the writes it performed, every successful read returned the bytes that store held then, and frames and present pages are in bijection, with records of the accesses that the policy can go by. Each operation succeeds or fails as its pages, the connection, the frames and Storage's answers decide. |
| `PagingClient.AllSucceed` | worker/src/memory/memory_manager.c:225-430 | As long as Storage is connected and no request to it fails, every operation of a script without empty accesses succeeds, in a memory of any number of frames but 0. |
| `PagingClient.PresentPagesSucceed` | worker/src/memory/memory_manager.c:355-430 | Anywhere in a script, an access whose pages are all present succeeds without a request to Storage, connected or not; it loads and evicts no page and clears no use bit. |
| `PagingClient.CompareManagers` | worker/src/memory/memory_manager.c:457-518 | Two managers of any memory sizes and policies that run one script over the same bytes, all operations succeeding, answer every read alike and end with the same bytes; all succeed when both have a frame and a Storage that answers. |
| `PagingClient.NewManagers` | worker/src/memory/memory_manager.c:54-97 | New managers over equal Storages start with the same bytes and a frame table in bijection, for any sizes and policies. |
| `PagingClient.RunAndFlush` | worker/src/memory/memory_manager.c:628-729 | After a script and a flush that returned 0, Storage's blocks hold what the flat store holds. |
| `PagingClient.ExecuteOp` | worker/src/memory/memory_manager.c:159-186 | Each operation is one step of the flat store: a successful write of all its data, a failed write of a prefix, anything else of nothing. It says when the operation succeeds and which accesses it records. |
| `PagingClient.FlatStep` | worker/src/memory/memory_manager.c:342-430 | Such a step keeps memory equal to the flat store. |
| `PagingRuns.RunIsFlatStore` | worker/src/memory/memory_manager.c:342-430 | Over any sequence of steps that each write a range of bytes or change no view, every byte is the flat store's. |
| `PagingRuns.PolicyIsInvisible` | worker/src/memory/memory_manager.c:342-430 | Two sequences of such steps with the same writes, whatever changes no view between them and whichever writes were cut short, end with the same bytes. |
| `PagingRuns.AccessIsOpStep` | worker/src/memory/memory_manager.c:342-430 | An access with any result is one such step: the bytes it transferred when it writes, nothing when it reads. |
| `MemoryManagerModule.MemoryManager.AccessMemory` | worker/src/memory/memory_manager.c:342-430 | Result 0 means all bytes were transferred; a write changes exactly the bytes of its range in the views, a read returns the views' bytes and changes none, across all faults; a failed access transferred a prefix and nothing else. The result is 0 exactly for a range that is not empty and whose pages are all present, or else when Storage is connected, a frame can be had and no request fails. The accesses recorded are those to the pages of the bytes transferred. The access ends exactly when Storage is not connected, the policy is LRU, or a frame is free or some page present, or it is empty. |
| `MemoryManagerModule.MemoryManager.ExecuteAccess` | worker/src/memory/memory_manager.c:159-186 | The same for a File:Tag whose page table may have to be created first. |
| `MemoryManagerModule.MemoryManager.HandlePageFault` | worker/src/memory/memory_manager.c:225-340 | Result 0 leaves the page present, and is returned exactly when Storage is connected, a frame can be had and no request to Storage fails; a page leaves only when no frame is free, and it is the policy's victim. Whatever happens, no view changes and the frame and access-record invariants are kept. The fault ends exactly when Storage is not connected, the policy is LRU, or a frame is free or some page present. |
| `MemoryManagerModule.MemoryManager.AllocateFrame` | worker/src/memory/memory_manager.c:457-518 | The first free frame, or without one the frame of the policy's victim, is returned used and unmapped, with all views kept and a dirty victim written back. There is none exactly when no frame is free and no page present, or the write-back failed; failure keeps all views and pages. The search ends exactly when the policy is LRU, or a frame is free or some page present. |
| `MemoryManagerModule.MemoryManager.FindLruVictim` | worker/src/memory/memory_manager.c:753-884 | The victim has the smallest recorded access time; its frame is freed after a write-back, and a failed write-back leaves it mapped. |
| `MemoryManagerModule.MemoryManager.FindClockMVictim` | worker/src/memory/memory_manager.c:886-1060 | The search ends exactly when there are no frames or some page is present; its outcome is then the eviction of the CLOCK-M victim with the hand just past it, or a failed write-back. |
| `MemoryManagerModule.MemoryManager.CleanPass` | worker/src/memory/memory_manager.c:905-960 | The first pass finds the first frame from the hand whose page is neither used nor dirty, or shows there is none. |
| `MemoryManagerModule.MemoryManager.DirtyPass` | worker/src/memory/memory_manager.c:962-1050 | The second pass finds the first page that is dirty but not used, having cleared the use bit of every mapped page. |
| `MemoryManagerModule.MemoryManager.FindPageForFrame` | worker/src/memory/memory_manager.c:9-37 | The page returned occupies the frame; none is returned exactly when no page does. |
| `MemoryManagerModule.MemoryManager.UpdatePageAccess` | worker/src/memory/memory_manager.c:731-751 | The access is recorded: under LRU the page gets the next timestamp, under CLOCK-M its use bit is set; other pages keep theirs. |
| `PagingModel.TouchSetsTime` | worker/src/memory/memory_manager.c:731-751 | Afterwards every present page records its accesses: under LRU the time of the latest one, under CLOCK-M whether there was one since the use bits were last cleared. |
| `PagingTheorems.AccessSetsUseBits` | worker/src/memory/memory_manager.c:342-430 | After an access during which no use bit was cleared, CLOCK-M's use bits are set for the pages accessed and as they were for the others. |
| `PagingTheorems.ClearedIsBookkeeping` | worker/src/memory/memory_manager.c:962-1010 | The clearing pass keeps those records right: it clears the use bit of every present page, and from then on counts accesses anew. |
| `PagingTheorems.PageDecided` | worker/src/memory/memory_manager.c:355-400 | One more page of an access either goes on or decides the result of the whole access. |
| `PagingTheorems.FaultDecided` | worker/src/memory/memory_manager.c:225-340 | A fault that got a frame adds its page to those present and takes away at most the policy's victim. |
| `MemoryManagerModule.MemoryManager.FlushQuery` | worker/src/memory/memory_manager.c:550-626 | The result is 0 exactly when Storage is connected and no request fails; it leaves no dirty page of the File:Tag, and no view changes. With none dirty nothing is sent or changed. |
| `MemoryManagerModule.MemoryManager.FlushAllDirty` | worker/src/memory/memory_manager.c:628-729 | The result is 0 exactly when Storage is connected and no request fails; it leaves no dirty page at all. Whatever the result, no view changes and only dirty pages were written; with none dirty nothing is sent or changed. |
| `MemoryManagerModule.MemoryManager.CreatePageTable` | worker/src/memory/memory_manager.c:159-186 | The File:Tag has a table afterwards, an existing one is returned as it is, and no view changes. |
| `MemoryManagerModule.MemoryManager.RemovePageTable` | worker/src/memory/memory_manager.c:188-206 | Exactly the pages of the File:Tag are forgotten; frames stay marked as used. |
| `MemoryManagerModule.MemoryManager.ResizePageTable` | worker/src/memory/memory_manager.c:208-218 | Zero pages or an unknown File:Tag are refused; otherwise the kept pages are unchanged and new ones are blank. |
| `FlushTheorems.FlushSynchronises` | worker/src/memory/memory_manager.c:628-729 | When no dirty page is left, every cached page equals its Storage block and every Storage block equals the view it had before. |
| `FlushTheorems.DropKeeps` | worker/src/memory/memory_manager.c:188-218 | Dropping pages keeps the frame invariants; exactly the views of dropped pages fall back to Storage. |
| `FlushTheorems.DropLeaksIffPresent` | worker/src/memory/page_table.c:46-74 | Dropping pages leaks a used frame if and only if one of them was present. |
| `ReplacementModel.LruVictimIsLeastRecent` | worker/src/memory/memory_manager.c:753-884 | The page of smallest recorded time is the present page whose latest access in the whole history is the oldest, strictly. |
| `ReplacementModel.ClockVictimByHistory` | worker/src/memory/memory_manager.c:886-1060 | The CLOCK-M victim against the history of accesses: a page accessed since the last clearing is evicted only when every present page was, among those a modified one only when all are, and among equals the one nearest to the hand. |
| `ReplacementModel.ClockVictimUnique` | worker/src/memory/memory_manager.c:886-1060 | The page minimising (2*use + dirty, distance from the hand) is unique, so the search has one correct answer. |
| `ReplacementModel.FirstIsVictim` | worker/src/memory/memory_manager.c:905-1000 | In the first round, the first page of the lowest class found from the hand is the CLOCK-M victim. |
| `ReplacementModel.SecondRoundVictim` | worker/src/memory/memory_manager.c:962-1050 | If all use bits were set, the first page found after the cleared round minimises the original classes. |
| `ReplacementModel.ClockSearchEndsIff` | worker/src/memory/memory_manager.c:886-1060 | The search ends if and only if some page is present, and then within two rounds. |
| `ReplacementModel.EmptySearchNeverEnds` | worker/src/memory/memory_manager.c:895-1057 | With no page present, no number of rounds finds one: each leaves the state as it was. |
| `ReplacementModel.FirstExists` | worker/src/memory/memory_manager.c:905-1000 | Where a page of a class is present, a pass meets a first one. |
| `PagingClient.FillAndRemove` | worker/src/memory/memory_manager.c:188-206 | The only frame is filled and the table of its page removed: the frame stays used, nothing can be replaced, and the search would never end. |
| `PagingClient.RemovalLeavesNoVictim` | worker/src/memory/memory_manager.c:188-206 | From a new manager with one frame: after that, the next access to any byte of any file does not end. |
| `PagingClient.LoadedThenRemoved` | worker/src/memory/memory_manager.c:188-206 | The same from a concrete state: the removal leaks the frame. |
| `PagingModel.BijectionHasVictim` | worker/src/memory/memory_manager.c:457-518 | With frames and present pages in bijection, a full frame table always has a victim candidate. |
| `PagingModel.EvictKeepsInv` | worker/src/memory/memory_manager.c:9-37 | Eviction keeps distinct present pages on distinct used frames. |
| `PagingModel.EvictKeepsViews` | worker/src/memory/memory_manager.c:753-884 | Evicting a page, after its write-back when dirty, changes no view. |
| `PagingTheorems.FaultServed` | worker/src/memory/memory_manager.c:225-340 | Loading a block into a reserved frame keeps every view and all invariants. |
| `PagingTheorems.FaultAborted` | worker/src/memory/memory_manager.c:300-340 | Giving the frame back when the block cannot be read keeps every view and all invariants. |
| `PagingTheorems.WroteMore` | worker/src/memory/memory_manager.c:342-430 | Writing page by page composes to one write of the whole range. |
| `PageTables.DirtyOfSound` | worker/src/memory/page_table.c:121-148 | The copied entries are exactly the dirty ones. |
| `PageTables.Resize` | worker/src/memory/page_table.c:46-74 | Kept entries are unchanged, new ones blank, and zero pages are refused. |
| `FsView.RunRefines` | storage/src/operations/write_block.c:210-320 | Over every run of safe requests whose COMMITs find no two colliding physical blocks, hard links, copy-on-write and deduplication are invisible: clients see what plain files that share nothing, and a set of file directories, would hold. |
| `FsView.StepRefines` | storage/src/operations/commit_tag.c:103-176 | Storage accepts a safe request exactly when the plain files do, with the same effect. |
| `FsView.RunKeepsSizes` | storage/src/operations/truncate_file.c:28-31 | Over every run of safe requests on Storage, with any digest, BLOCKS has ceil(SIZE / block size) entries, apart from the one block of initial_file:BASE and its forks. |
| `FsView.ReachableSizes` | storage/src/fresh_start/fresh_start.c:185-213 | So it has in every filesystem that safe requests reach from a fresh one. |
| `FsView.StepKeepsParameters` | storage/src/utils/filesystem_utils.c:26-45 | Only CREATE makes the directory of a file, and no request removes one. |
| `FsRuns.RunKeeps` | storage/src/utils/filesystem_utils.c:325-375 | Over every run: metadata equals link targets, link count = 1 + references, a bit is set exactly for referenced blocks, the index is truthful, and every committed tag keeps its metadata, links and content. |
| `FsRuns.StepKeeps` | storage/src/utils/filesystem_utils.c:438-540 | Every safe request, accepted or refused, keeps all of that. |
| `FsRuns.FailureChangesNothing` | storage/src/operations/write_block.c:226-262 | A safe request that fails leaves the filesystem as it was. |
| `FsRuns.FreshStartGood` | storage/src/fresh_start/fresh_start.c:46-213 | A fresh filesystem satisfies every invariant. |
| `FsRuns.WriteFreezes` | storage/src/operations/write_block.c:236-264 | A write leaves every committed tag and the index alone. |
| `FsTheorems.SharedIffAliased` | storage/src/operations/write_block.c:249-264 | The local test nlink > 2 holds exactly when another logical block of some tag is a name of the same physical block. |
| `FsTheorems.AloneIffUnreferenced` | storage/src/utils/filesystem_utils.c:351-360 | A link count of 1 means exactly that no logical block is left. |
| `FsTheorems.WriteIsIsolated` | storage/src/operations/write_block.c:160-320 | A successful write sets its block to the data, zero-padded or cut, and changes no other logical block of any tag. |
| `FsTheorems.WriteSucceedsIff` | storage/src/operations/write_block.c:210-320 | A write succeeds exactly on an existing block of an uncommitted tag, given a free block when it is shared. |
| `FsCodes.WriteCodes` | storage/src/operations/write_block.c:210-320 | The code of a write names the first check that fails: missing tag, committed, out of range, no space, or a bit taken beyond the last physical block. |
| `FsCodes.RefusedWrite` | storage/src/operations/write_block.c:254-288 | A refused write stores nothing: disk, metadata and index stay, every other logical block reads as before, and at most the block's own name is gone, exactly when it is shared and no block is free. |
| `FsCodes.CreateCodes` | storage/src/operations/create_file.c:9-31 | CREATE is refused exactly for an existing File:Tag, and then changes nothing. |
| `FsCodes.TagCodes` | storage/src/operations/create_tag.c:6-109 | TAG is refused for an existing destination, then for a missing source, then for a file without a directory, each with its code and without a change. |
| `FsCodes.TruncateCodes` | storage/src/operations/truncate_file.c:17-92 | TRUNCATE is refused exactly for a missing File:Tag, with -1 and without a change. |
| `FsCodes.CommitCodes` | storage/src/operations/commit_tag.c:103-176 | COMMIT is refused for a missing tag and for a committed one, each with its code and without a change. |
| `FsCodes.DeleteCodes` | storage/src/operations/delete_tag.c:7-60 | DELETE is refused exactly for BASE and for a missing tag, each with its code and without a change. |
| `FsTheorems.WriteKeepsConsistentIff` | storage/src/operations/write_block.c:264-288 | The filesystem stays consistent exactly when a shared block finds a free one: the source unlinks before it looks for space. |
| `FsTheorems.ReadIsContent` | storage/src/operations/read_block.c:126-177 | A read returns the content of an existing logical block, and the documented error otherwise. |
| `FsNamespace.ForkKeeps` | storage/src/operations/create_tag.c:6-109 | A fork succeeds exactly from an existing tag to a new one of a file that has a directory, reads as its source, and nothing else changes; a refused one changes nothing. |
| `FsNamespace.CreateFileKeeps` | storage/src/operations/create_file.c:9-31 | Creation succeeds exactly on a new File:Tag and touches no block. |
| `FsNamespace.DeleteLogicalKeeps` | storage/src/utils/filesystem_utils.c:325-375 | Deleting a logical block frees its physical block exactly when no other name is left. |
| `FsNamespace.TruncateKeeps` | storage/src/operations/truncate_file.c:17-92 | For every size: rounded-up block count, kept blocks with their content, new blocks reading as zeros, other tags untouched. |
| `FsNamespace.BlockCountIsCeiling` | storage/src/operations/truncate_file.c:29-30 | The block count is the least one whose blocks hold the size. |
| `FsNamespace.TruncateBaseKeepsIff` | storage/src/operations/truncate_file.c:17-46 | Truncating initial_file:BASE keeps the filesystem consistent exactly for sizes of at least one block; growing it is harmless. |
| `FsBase.TruncatingBaseMixesFiles` | storage/src/operations/truncate_file.c:50-58 | A concrete run: after TRUNCATE of initial_file:BASE to 0, a block that a new file was grown by reads what was written to another file. |
| `FsNamespace.DeleteKeeps` | storage/src/operations/delete_tag.c:7-60 | Deletion succeeds exactly on an existing tag other than BASE; its unshared blocks are freed and every other tag reads as before. |
| `FsCommit.RelinkedKeeps` | storage/src/operations/commit_tag.c:513-605 | Relinking a block to one in use elsewhere keeps the filesystem consistent and frees the old block exactly when nobody else names it. |
| `FsCommit.DedupBlockKeeps` | storage/src/operations/commit_tag.c:206-352 | One round of deduplication relinks at most its block, to a block of equal digest, and keeps the index truthful. |
| `FsCommitTheorems.CommitKeeps` | storage/src/operations/commit_tag.c:103-176 | COMMIT succeeds exactly on an uncommitted tag; it touches no physical block, relinks only that tag's blocks to equal digests, and keeps consistency and the index. |
| `FsCommitTheorems.CommitPreservesContent` | storage/src/operations/commit_tag.c:178-375 | With a collision-free digest, every logical block of every tag reads as before. |
| `FsCommitTheorems.CommitPreservesContentIff` | storage/src/operations/commit_tag.c:259-352 | For any digest and any hash index, truthful or not, a successful COMMIT preserves all contents exactly when each block equals its representative. |
| `FsCommitTheorems.CommitKeepsBlockIff` | storage/src/operations/commit_tag.c:259-352 | One block reads what its representative holds, so it keeps its content exactly when that is the same. |
| `FsCommitTheorems.DedupSettles` | storage/src/operations/commit_tag.c:206-352 | The loop from any block on succeeds exactly when every block has a physical representative, and moves each to its own. |
| `FsCommitConsistency.CommitKeepsConsistentIff` | storage/src/operations/commit_tag.c:513-605 | For any hash index, a successful COMMIT keeps the filesystem consistent exactly when each block stays, follows an earlier one to its representative, or moves to one that some other name still holds: the source never sets the bit of a representative. |
| `FsCommitConsistency.DedupConsistentIff` | storage/src/operations/commit_tag.c:206-352 | The same for the loop from any block on; where it fails, the bitmap is what breaks. |
| `FsStale.StaleCommitIsOverwritten` | storage/src/operations/commit_tag.c:513-605 | A concrete run: a COMMIT with a stale index moves a block to a free one, and the next write to another file changes what the committed tag reads. |
| `FsCommitTheorems.CommitLinksRepresentative` | storage/src/operations/commit_tag.c:259-352 | In any consistent filesystem each block becomes a name of whatever the index has for its digest, or of the first block of the tag with that digest, and no other link changes; COMMIT of an uncommitted tag fails exactly when the index has something that is not a physical block. |
| `FsCommitTheorems.CommittedShare` | storage/src/operations/commit_tag.c:259-352 | Blocks of tags that went through COMMIT are equal exactly when they share one physical block. |
| `FsCommitTheorems.CommitFreesUnreferenced` | storage/src/operations/commit_tag.c:543-605 | COMMIT frees exactly the physical blocks that lose their last logical block. |
| `FsLimits.DeleteKeepsGoodIff` | storage/src/operations/delete_tag.c:31-52 | Deleting a committed tag keeps the invariants exactly when no indexed block was held by it alone. |
| `FsLimits.TruncateKeepsIndexIff` | storage/src/operations/truncate_file.c:50-58 | Truncating keeps the index truthful exactly when no indexed block was held by the dropped part alone. |
| `FsLimits.DeletingCommittedTagLosesBlock` | storage/src/operations/delete_tag.c:7-60 | A concrete run in which, after the DELETE of a committed tag, the representative of another file's block reads differently and COMMIT changes that block. |
| `FsLimits.TruncatingCommittedTagLeavesStaleEntry` | storage/src/operations/truncate_file.c:17-46 | A concrete run in which TRUNCATE of a committed tag leaves an index entry for a block nobody holds. |
| `FsLimits.ForkToNewFileFails` | storage/src/operations/create_tag.c:49-57 | A concrete TAG to a file that was never created is refused. |
| `FsSpace.FullDiskBreaksConsistency` | storage/src/operations/write_block.c:264-288 | A concrete run that fills the disk and ends in a write that finds no free block and leaves the filesystem inconsistent. |
| `FilesystemModule.Filesystem.constructor` | storage/src/fresh_start/fresh_start.c:46-213 | The constructed state is the fresh filesystem. |
| `FilesystemModule.Filesystem.ExecuteCreateFile` | storage/src/operations/create_file.c:9-31 | The new state and the code are the specified ones. |
| `FilesystemModule.Filesystem.GetFreeBitIndex` | storage/src/utils/filesystem_utils.c:438-448 | The scan returns the lowest clear bit, or the bitmap's length. |
| `FilesystemModule.Filesystem.ExecuteBlockWrite` | storage/src/operations/write_block.c:210-320 | The new state and the result code are those of the specification, on every path. |
| `FilesystemModule.Filesystem.ExecuteBlockRead` | storage/src/operations/read_block.c:126-177 | Result code and block are those of the specification. |
| `FilesystemModule.Filesystem.ExecuteDeleteLogicalBlock` | storage/src/utils/filesystem_utils.c:325-375 | The same, for deleting one logical block. |
| `FilesystemModule.Filesystem.ExecuteTruncate` | storage/src/operations/truncate_file.c:17-92 | The shrinking and growing loops reach the specified state, also when a link fails. |
| `FilesystemModule.Filesystem.ExecuteCreateTag` | storage/src/operations/create_tag.c:6-109 | The same, for a fork. |
| `FilesystemModule.Filesystem.ExecuteDeleteTag` | storage/src/operations/delete_tag.c:7-60 | The loop stops at the first block that cannot be deleted, in the specified state. |
| `FilesystemModule.Filesystem.DeduplicateBlocks` | storage/src/operations/commit_tag.c:178-375 | The loop over in-memory metadata and index computes the specified deduplication, stopping at the first failure. |
| `FilesystemModule.Filesystem.ExecuteTagCommit` | storage/src/operations/commit_tag.c:103-176 | Metadata and index are saved at the end only; state and code are the specified ones. |
| `SystemModel.ExecutedInOrder` | worker/src/query_executor.c:12-217 | Over any interleaving of Master handlers, channels and Worker critical sections, the completed program counters of every query are 0, 1, 2, ... with no gap or repeat, and the scheduler is consistent. |
| `SystemModel.NextKeeps` | master/src/worker_manager.c:159-434 | Every atomic step keeps the system invariant. |
| `SystemModel.MessageIsExpected` | master/src/worker_manager.c:233-238 | The protocol only delivers EVICT and END messages that the Master can expect, so no hypothesis about messages is left. |
| `SystemModel.ReceiveEventKeeps` | master/src/worker_manager.c:159-434 | Taking a worker's message keeps the system invariant, also a late EVICT of a finished query. |
| `SystemModel.SentDispatchEventKeeps` | master/src/scheduler.c:65-91 | A dispatched query is carried by its start message at its resume point. |
| `SystemModel.ExecutorEventKeeps` | worker/src/query_executor.c:108-217 | An executor step completes at most one instruction, the next one of its worker's query. |
| `Carriers.AtMostOneCarrier` | master/src/worker_manager.c:264-284 | READY queue, start message, worker and evict message: at most one carries a live query, and with the number of its completed instructions. |
| `Delivery.StepKeepsAccountedIff` | worker/src/query_executor.c:44-81 | A live query that some place carries, or whose end has been reported, stays so after any step of the system exactly when the step is not its worker's executor leaving an ejected query after this one was assigned. |
| `Delivery.RunAccounts` | worker/src/query_executor.c:44-81 | Over any interleaving without that step, every live query is carried somewhere or its end is on the way. |
| `Delivery.NotedRequestStaysIff` | worker/src/query_executor.c:25-28 | A noted preempt request is forgotten exactly when the executor begins the query it has fetched. |
| `HandshakeLimits.AssignedQueryCanBeDropped` | worker/src/query_executor.c:44-50 | A concrete interleaving from the start that ends with a running query which no place carries. |
| `HandshakeLimits.PreemptRequestCanBeDropped` | worker/src/query_executor.c:25-28 | A concrete interleaving from the start in which a preempt request is cleared and its query goes on while the Master waits. |
| `Protocol.ExecutorKeepsAgreement` | worker/src/query_executor.c:12-217 | Every critical section of the executor keeps the agreement between worker, channels and Master. |
| `Protocol.ListenerKeepsAgreement` | worker/src/worker_listener.c:53-111 | So does every message the listener handles. |
| `MasterRuns.RunKeepsConsistent` | master/src/scheduler.c:65-124 | In every reachable state each live query is in exactly one of ready and running with a matching state, each worker in exactly one of idle and busy, the two pair one-to-one, and the connected count is the number of workers. |
| `MasterRuns.NobodyOvertakesInRun` | master/src/query_control_manager.c:124-143 | Over any run in which a query of priority 0 stays READY, with stable sorts and successful sends, the set of queries ahead of it never grows. |
| `MasterRuns.NobodyOvertakes` | master/src/query_control_manager.c:124-143 | No single handler puts a query ahead of it. |
| `MasterTheorems.EvictKeepsIff` | master/src/worker_manager.c:216-303 | EVICT keeps the scheduler consistent exactly when it is about no running query or comes from the worker that has it. |
| `MasterTheorems.EndKeepsIff` | master/src/worker_manager.c:351-425 | END keeps it exactly when it comes from the worker that has the query, or from an idle worker when the query is not running. |
| `MasterTheorems.EndAfterStorageErrorBreaks` | master/src/disconnection_handler.c:435-483 | A storage error keeps the scheduler consistent, but when the freed worker gets another query the END of the failed one breaks it. |
| `MasterLimits.StorageErrorRunBreaks` | master/src/disconnection_handler.c:435-483 | A concrete run from the start in which that happens. |
| `MasterLimits.StrangerEvictRunBreaks` | master/src/worker_manager.c:233-238 | A concrete run from the start in which an EVICT from another worker breaks consistency. |
| `MasterLimits.SecondDepartureRunBreaks` | master/src/disconnection_handler.c:96-101 | A concrete run from the start in which the second departure of a Query Control breaks consistency. |
| `MasterTheorems.ControlLeftKeepsIff` | master/src/disconnection_handler.c:76-107 | The departure of a Query Control keeps it exactly when the query was not cancelled before. |
| `MasterTheorems.WorkerLeftKeeps` | master/src/disconnection_handler.c:115-173 | The departure of a worker keeps it: the worker and its query leave every list. |
| `MasterTheorems.DispatchKeeps` | master/src/scheduler.c:65-124 | Dispatch keeps it, whether the message is sent or everything is put back. |
| `MasterTheorems.CheckPreemptionKeeps` | master/src/aging.c:97-186 | Preemption keeps it, whether its request is sent or not. |
| `MasterEffects.CheckPreemptionMarksIff` | master/src/aging.c:97-186 | A query is newly marked exactly when its request was sent, some READY query has a smaller number than some running one, and it is the first running query of the greatest number and not marked yet; nothing else changes. |
| `SystemModel.PreemptionRequests` | master/src/aging.c:136-186 | In the system, check_preemption appends a preempt request to the channel of exactly that query's worker, and to no other. |
| `MasterEffects.MustPreemptIff` | master/src/aging.c:107-126 | Comparing the head of the ready queue with the worst running query decides whether any READY query is better than any running one. |
| `MasterEffects.DispatchEffect` | master/src/scheduler.c:40-130 | No query is dispatched while a preemption is pending; otherwise a READY query and an idle worker suffice, the first of each are paired, and a failed send only reorders the queues. |
| `MasterEffects.EvictEffect` | master/src/worker_manager.c:241-303 | A cancelled query is gone after its EVICT; any other is READY at the resume point, in its place by priority, and the worker is idle. |
| `MasterEffects.EndEffect` | master/src/worker_manager.c:351-425 | After an END from its worker the query is gone and the worker idle, and nothing else changes. |
| `MasterEffects.StorageErrorEffect` | master/src/disconnection_handler.c:379-483 | A storage error ends the current query of a busy worker, and changes nothing otherwise. |
| `MasterEffects.ControlLeftEffect` | master/src/disconnection_handler.c:42-113 | A READY query whose Query Control leaves is gone; a running one becomes CANCELED and stays in its lists, also when the request cannot be sent. |
| `MasterEffects.WorkerLeftEffect` | master/src/disconnection_handler.c:115-173 | A worker that leaves takes its query with it and nothing else. |
| `MasterEffects.TickAgesReady` | master/src/aging.c:41-82 | A tick gives every READY query the priority its waiting time asks for, and leaves every other control block alone. |
| `MasterEffects.RunAgesByWaiting` | master/src/aging.c:26-87 | Over any run of the Master in which a query stays READY, its priority after the last tick is max(0, p0 - floor((t - t0)/interval)), whatever happens between the ticks. |
| `MasterEffects.RunIsTicks` | master/src/aging.c:26-87 | Over such a run its control block sees exactly the ticks. |
| `MasterTheorems.InsertAscending` | master/src/query_control_manager.c:124-143 | Insertion by priority keeps the queue in priority order. |
| `MasterTheorems.SubmitKeeps` | master/src/query_control_manager.c:83-122 | A new query gets an identifier no query had, starts at instruction 0, and stands behind all that are not worse and before all that are, or last under FIFO; consistency is kept. |
| `AgingTheorems.AgingIsScheduleFree` | master/src/aging.c:41-82 | For any increasing tick times the priority after the last tick t is max(0, p0 - floor((t - t0)/interval)). |
| `AgingTheorems.TickKeeps` | master/src/aging.c:84-87 | A tick keeps the scheduler consistent and the queue sorted. |
| `AgingTheorems.TickAgesIff` | master/src/aging.c:55-79 | One tick gives the right priority exactly when the count of intervals is below 2^31, or the priority is 0 already, or what the conversion to int leaves of the count is still enough. |
| `AgingTheorems.LateTickIff` | master/src/aging.c:26-79 | A tick whose clock is older than the timestamp leaves the query alone exactly when its priority is 0 or the wrapped-around count is not positive; otherwise it subtracts that count. |
| `AgingTheorems.LateTimestampDropsToZero` | master/src/aging.c:26-82 | With an interval of one second, a query that turned READY one millisecond after the clock was read drops to priority 0 at once. |
| `AgingTheorems.LateTimestampKept` | master/src/aging.c:26-82 | With an interval of one millisecond the same query is left alone. |
| `SchedulerModule.Scheduler.CreateWorker` | master/src/worker_manager.c:137-156 | A new worker is idle, listed and counted. |
| `SchedulerModule.Scheduler.InsertQueryByPriority` | master/src/query_control_manager.c:124-143 | The loop inserts before the first query of strictly greater number. |
| `SchedulerModule.Scheduler.CreateQuery` | master/src/query_control_manager.c:83-122 | The new tables are the specified ones. |
| `SchedulerModule.Scheduler.TryDispatch` | master/src/scheduler.c:8-130 | The tables are those of a dispatch, or of the revert path when the send failed. |
| `SchedulerModule.Scheduler.ManageEvictResponse` | master/src/worker_manager.c:199-303 | The tables are the specified ones for requeued, cancelled and unknown queries. |
| `SchedulerModule.Scheduler.ManageEndQuery` | master/src/worker_manager.c:317-434 | The tables and the result are the specified ones, also for a query that is not running. |
| `SchedulerModule.Scheduler.HandleErrorFromStorage` | master/src/disconnection_handler.c:379-483 | The worker's current query is cleaned up and the worker freed. |
| `SchedulerModule.Scheduler.PreemptQueryInExec` | master/src/aging.c:136-186 | The query is marked exactly when its request was sent. |
| `SchedulerModule.Scheduler.CheckPreemption` | master/src/aging.c:97-133 | The first running query of greatest number is preempted exactly when the best READY one has a smaller number. |
| `SchedulerModule.Scheduler.HandleControlDisconnection` | master/src/disconnection_handler.c:42-113 | The tables are the specified ones in every query state. |
| `SchedulerModule.Scheduler.HandleWorkerDisconnection` | master/src/disconnection_handler.c:115-173 | The tables are those without the worker and its query. |
| `SchedulerModule.Scheduler.AgingTick` | master/src/aging.c:33-87 | The loop ages exactly the READY queries and sorts only when a priority changed. |
| `WorkerModule.Worker.RunQuery` | worker/src/query_executor.c:21-54 | The executor's loop completes consecutive instructions, stops after an END, and an ejection gives back exactly the first instruction that is not done; it goes on while what it is told of ejections and failures allows it, and the last turn gives the result. |
| `WorkerModule.Worker.ExecuteSingleInstruction` | worker/src/query_executor.c:108-217 | The answers asked for, in order, and the result each combination gives: the ejection flag before the instruction, the end of the script, the failure, the flag after it, the END. |
| `WorkerModule.EjectedIffSeen` | worker/src/query_executor.c:108-217 | A run of turns ends in an ejection exactly when one was found requested. |
| `WorkerModule.TurnIsThreeSteps` | worker/src/query_executor.c:108-217 | One turn is three steps of the executor in the state machine of the two threads, with the same completed instruction, messages and next phase. |
| `WorkerModule.Worker.EjectQuery` | worker/src/worker_listener.c:82-111 | The ejection flag is set, or the query is taken back when it is not executing, or nothing happens. |
| `WorkerModule.Worker.LeaveQuery` | worker/src/query_executor.c:44-81 | The query flag is cleared after an ejection whatever query it is for, otherwise only for the query that was left. |
| `LockTable.LockTableIsSafe` | storage/src/file_locks.c:8-73 | Under any interleaving: the lock a thread uses exists, its count is the number of its users, same File:Tag means same lock, and a writer never overlaps another holder. |
| `LockTable.NextKeeps` | storage/src/file_locks.c:8-73 | Every critical section keeps the table's invariant. |
| `LockTable.LeaveKeeps` | storage/src/file_locks.c:60-70 | An entry is destroyed exactly when no thread is left that uses it. |
| `LockTable.OpenFiles.EnterEntry` | storage/src/file_locks.c:11-31 | The entry is found or created, and counted. |
| `LockTable.OpenFiles.LeaveEntry` | storage/src/file_locks.c:60-70 | The count goes down, and at zero the entry leaves the dictionary and is destroyed. |
| `WireTheorems.WireRoundTrip` | utils/src/connection/serialization.c:554-664 | Fields within the limits, written through any number of doublings and sent padded to capacity, read back in order as the same values. |
| `WireTheorems.NetworkByteOrder` | utils/src/connection/serialization.c:186-203 | Integers go out with the high byte first, and any bytes are read as the number they denote that way. |
| `WireTheorems.WriteAllFitsIff` | utils/src/connection/serialization.c:70-101 | Fields can be written to a new package exactly when no binary data is empty and they take at most 64 MiB. |
| `WireTheorems.GrownSizeIff` | utils/src/connection/serialization.c:70-101 | The doubling loop ends at a doubled size, within MAX_BUFFER_SIZE exactly up to 64 MiB. |
| `WireTheorems.PackageRoundTrip` | utils/src/connection/serialization.c:554-664 | A package arrives as it was sent and what follows it is left alone. |
| `WireTheorems.TextReadableIff` | utils/src/connection/serialization.c:326-356 | A written string reads back exactly up to 1 MiB. |
| `WireTheorems.DataReadableIff` | utils/src/connection/serialization.c:359-388 | Written binary data reads back exactly up to 10 MiB. |
| `WireTheorems.WriteAppends` | utils/src/connection/serialization.c:150-264 | A write keeps the bytes written before and appends its field. |
| `WireBuffer.Buffer.Expand` | utils/src/connection/serialization.c:70-101 | The buffer keeps its bytes, is zero behind them, and is unchanged when the limit would be exceeded. |
| `WireBuffer.Buffer.WriteText` | utils/src/connection/serialization.c:211-235 | Length and characters are written, or nothing is. |
| `WireBuffer.Buffer.WriteData` | utils/src/connection/serialization.c:238-264 | Empty data is refused; otherwise size and bytes are written, or nothing is. |
| `WireBuffer.Buffer.ReadText` | utils/src/connection/serialization.c:326-356 | The string is read, or the offset is put back. |
| `WireBuffer.Buffer.ReadData` | utils/src/connection/serialization.c:359-388 | The data is read, or the offset is put back. |

## Left out

- Sockets, accept loops, handshakes, logging, delays and configuration: a send is a success or a failure, a channel a FIFO queue.
- Allocation failures, memory lifetimes and the last_victim strings of the memory manager; malloc(0) in TRUNCATE to no blocks is taken to succeed.
- Machine integers, except where they matter (aging, string lengths, package sizes): block numbers, sizes, timestamps and counters are unbounded, and a TRUNCATE size above 2^31 is not wrapped to a negative one.
- Page tables are values inside the memory manager's entries, so that two references to one table are not told apart.
- Storage as a Worker sees it: one Worker's blocks, written and read whole; several Workers on the same File:Tag are not composed with the filesystem model.
- Missing blocks: a block that Storage does not have is read as zeros, and writing one creates it; in the running system such a request is an error, which worker/src/connections/storage.c:154-233 reports as -1, so this adds behaviours and takes none away.
- Real filesystem calls: hard links are a map from logical blocks to physical blocks with link counts, `cp -rl` and `rm -rf` are single steps, and no call fails for reasons outside the model.
- The bitmap file is read and written as one value; its bit order is not modelled.
- Concurrent Storage requests: an operation is one atomic step, since the calls to lock_file in the operations are commented out; the lock table is verified on its own.
- MemoryManagerModule.MemoryManager.FindClockMVictim: the source's loop has no bound; the method gives up after two rounds and reports that the search would not end, which `ReplacementModel.ClockSearchEndsIff` justifies.
- MemoryManagerModule.MemoryManager.AllocateFrame: where the source's search does not end, this method and its callers return -1 with `ended` false; `PagingModel.BijectionHasVictim` shows that runs without table removal always end.
- MasterTheorems.SubmitKeeps: identifiers are fresh because drawing one and queueing its query are one step; generate_query_id increments the counter outside every mutex, so two submissions at once can draw the same one in the source.
- MemoryManagerModule.MemoryManager.RemovePageTable: states what is forgotten, not that frames are freed, because the source does not free them.
- SystemModel.ExecutedInOrder: safety only, because the source can lose a preempt request or an assigned query (`HandshakeLimits.PreemptRequestCanBeDropped`, `HandshakeLimits.AssignedQueryCanBeDropped`), and without storage-error reports, which break the scheduler's consistency.
- LockTable.LockTableIsSafe: locks of one thread at a time, and no fairness of the reader-writer lock; two File:Tags whose names join to the same `name:tag` string share a lock as in the source.
- Deadlock between the Master's two mutexes: handle_query_control_disconnection takes them in the other order.
- A Worker that lost its connection to the Master may go on executing; its query is already finished for the Master, and those steps are not modelled.
- The executor flushes before it reports an ejection but ignores the result of the flush; `FlushTheorems.FlushSynchronises` says what Storage holds when the flush succeeded.
- handle_eviction_response: no code calls it.
- The text of a string read from the wire ends at its first zero byte in C; fields are byte sequences here.
- Reading binary data of size 0, which no writer produces, is taken to succeed.
- Decoding of instructions, error texts, the Query Control program, and reads forwarded to it: no state of their own.
- mm_mark_all_clean, mm_get_dirty_pages and the other accessors of the memory manager: one-line members.
