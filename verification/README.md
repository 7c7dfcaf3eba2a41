# Verified model of the kernel's memory management and scheduling

A Dafny model of the parts of the kernel whose correctness is not visible from
one function: the rank-balanced search tree, the AArch64 page tables, the
allocator of address space identifiers, the allocator of virtual regions, the
physical page allocator with its quotas, the scheduler with its wait queues, the
timer queue, mutexes and semaphores, the order of initialisation hooks, and the
relocation of the kernel image. `dafny verify dfyconfig.toml` checks all of it.

| files | what they model |
|---|---|
| `Common`, `Lists`, `Align` | options, 64-bit words, lists without repetition, multiples |
| `WavlLinks`, `WavlRanks`, `Wavl`, `WavlShapes` | the tree: links and order; ranks, rotations and repair; the operations; which trees a sequence can have |
| `PageFlags`, `PageTables`, `PageTableSteps`, `PageTableLean`, `PageTableRoom`, `PageTableUnmap`, `PageTableMap`, `PageTableMapper`, `PageTableOutcome`, `PageTableSpace` | descriptors and the walk; changes of one entry; empty tables; what a mapping needs; unmap; map; when a mapping succeeds; the address space |
| `AsidAllocator` | identifiers, generations and the cached translations of every CPU |
| `Regions`, `Gaps`, `Spots`, `Vmm` | the region comparator; gaps and spots; the choice of a spot; the region tree |
| `Arenas`, `FreeRun`, `Pmm`, `Reserves`, `Quota` | arenas; the search for a run; allocation; reserves; resource groups |
| `Threads`, `Scheduler` | run queues, wait queues, processors; the scheduler's operations |
| `TimerQueue`, `Timers` | sorted queues with wrapping times; set, cancel and the timer interrupt |
| `Locks` | mutexes and semaphores as steps of their threads |
| `InitLevels`, `Relocate` | initialisation hooks; RELR relocation |

## How to read the model

* **Nodes and tables in memory.** A tree node or a page table is an address, and
  the memory is a map from addresses to the fields stored there. An operation
  reads and rewrites that map step by step, in the order of the C code, and the
  object that owns it (`Wavl.Tree`, `PageTableSpace.Aspace`) keeps it in a field.
* **Layouts.** The tree carries its in-order sequence, and for each node the
  interval of that sequence below it. The page tables carry for each table the
  path of entry indexes that leads to it. Both are ghost and flat, so that a
  rotation or a new table changes only a few of their entries.
* **Locks.** Code under a lock is one method. `Quota.Memory`, `Locks` and
  `Scheduler.Scheduler` have a method for each such stretch, and what a thread is
  in the middle of between two of them is part of the state, so the invariants
  hold over every interleaving.

## What is false, and when it is true

* An unmap removes more than was asked for when a block straddles an end of the
  range. It is exact if and only if no block does (`PageTableSpace.UnmapExact`);
  `PageTableSpace.UnmapTakesTooMuch` gives a state where it is not, for every
  granule with more than one entry to a table.
* A map can fail although nothing in its range is translated, when it would have
  to place a block where an empty table stands. A mapping of one page that finds
  a free page for one table and none for the next leaves such a state behind, on
  every granule with more than one entry to a table
  (`PageTableOutcome.LeaveEmptyTable`): no block can be mapped over its empty
  table (`PageTableOutcome.EmptyTableBars`), but each part of it can
  (`PageTableOutcome.EmptyTableParts`). A map succeeds if and only if nothing in
  the range is translated, no aligned chunk that a block may map has a table for
  its entry, and there is a free page for each table that is missing on the way
  (`PageTableSpace.Aspace.Map`, `PageTableOutcome.RoomIff`). Without empty
  tables the second condition follows from the first
  (`PageTableOutcome.LeanRoomIff`).
* A contiguous allocation can succeed with pages that are not contiguous. It
  gives a run if and only if the first arena that can serve any of the request
  can serve all of it (`Pmm.RunIffOneArena`, `Pmm.RunAcrossArenas`).
* A lookup of more than one page can miss the region that contains the address,
  and its debug assertion can fail (`Vmm.LongLookupMisses` gives a tree of two
  regions). What is found is the colliding region that all others are beneath in
  the tree (`Vmm.Aspace.Find`). The region with the address is found in every
  tree over the regions if and only if the range does not collide with the next
  region, or there are three regions and it is the middle one
  (`Vmm.NextApartTopmost`, `Vmm.NextHitMisses`). The assertion holds if and only
  if the region that is hit contains the address or begins no more than a page
  after it (`Regions.BesideIff`). It holds in every tree over the regions if and
  only if the first colliding region begins so early, and each of the next two
  does so as well, does not collide, or cannot be above the first one in any
  tree (`Vmm.BesideInEvery`, `Vmm.BesideFailsIn`). In an allocation it only
  fails for requests that are refused anyway (`Vmm.Aspace.AllocRegion`).
* A timed wait on a mutex can leave another thread waiting for a mutex that
  nobody holds (`Locks.LostWakeUp`). If that thread waits without a timeout, it
  does so for ever and nobody gets the mutex, in every run and whatever other
  waits time out (`Locks.StuckStays`): a free mutex is had again if and only if
  a thread asks for it while none waits and none has yet to take back its count
  after a timeout (`Locks.FreeStep`). A timed wait on a semaphore can leave a
  thread waiting at a count that is not negative (`Locks.ForgottenWaiter`). A
  post wakes the first waiter if and only if the count is negative before
  (`Locks.PostWakes`), so no number of posts wakes that thread until another one
  joins the queue (`Locks.PostsInVain`, `Locks.OnlyPosts`), and then a post does
  if the count was 0 (`Locks.JoinThenPost`). The steps that lead there are given
  exactly (`Locks.WaitForNobody`, `Locks.WaitInVain`); without timed waits it
  never happens (`Locks.UntimedAwaited`, `Locks.UntimedServed`).
* An updated relocation table denotes the moved words if and only if it marks
  nothing before its first address, or the distance is 0 in 64-bit words
  (`Relocate.UpdatedTable`, with an example in `Relocate.BitmapFirst`).

## Model

| member | source | states |
|---|---|---|
| `WavlLinks.RotateLinked` | lib/binary_search_tree/binary_search_tree.c:126-136 | a rotation keeps every parent, child and root pointer in agreement and the in-order sequence as it is |
| `WavlLinks.UnlinkLinked` | lib/binary_search_tree/binary_search_tree.c:96-107 | moving an only child up takes exactly the node out of the sequence and keeps all pointers in agreement |
| `WavlLinks.ReplaceLinked` | lib/binary_search_tree/binary_search_tree.c:478-482 | putting the unlinked neighbour in place of a node with two children exchanges the two in the sequence |
| `WavlRanks.RotateInsertOk` | lib/binary_search_tree/binary_search_tree.c:141-185 | one single or double rotation restores every rank rule after an insertion and keeps the sequence |
| `WavlRanks.RotateDeleteOk` | lib/binary_search_tree/binary_search_tree.c:271-325 | one single or double rotation restores every rank rule after a deletion and keeps the sequence |
| `WavlRanks.Promote` | lib/binary_search_tree/binary_search_tree.c:217-264 | a promotion moves the only violation to the parent, which is then a 1,2-node |
| `WavlRanks.DemoteOk` | lib/binary_search_tree/binary_search_tree.c:352-370 | a node that is demoted because it has lost a rank below it obeys the rank rule again |
| `WavlRanks.DemoteBothOk` | lib/binary_search_tree/binary_search_tree.c:370-380 | a node demoted together with its 2,2-sibling child obeys the rank rule again, and so does that child |
| `WavlRanks.DeleteUp` | lib/binary_search_tree/binary_search_tree.c:352-399 | after either demotion the only violation is at the parent, or the tree is valid if there is none |
| `WavlRanks.SizeBound` | lib/binary_search_tree/binary_search_tree.c:193-265 | a subtree of rank r has at least 2 to the half of r, less one, nodes, even while a repair is pending |
| `Wavl.UpdateRankInsert` | lib/binary_search_tree/binary_search_tree.c:193-265 | from any new leaf of rank 1 the climb ends in a valid tree with the same sequence, without 2,2-nodes if there were none, in logarithmically many steps and with at most one rotation, after which it returns |
| `Wavl.UpdateRankDelete` | lib/binary_search_tree/binary_search_tree.c:336-402 | the climb after an unlink ends in a valid tree with the same sequence, in logarithmically many steps and with at most one rotation, after which it returns |
| `Wavl.DeleteLinks` | lib/binary_search_tree/binary_search_tree.c:437-483 | unlinking a node with no, one or two children, also when its replacement is its own child, takes it out of the sequence and leaves one place to repair |
| `Wavl.InsertLinks` | lib/binary_search_tree/include/lib/binary_search_tree.h:209-239 | the node is linked where the comparator leads, or refused exactly if some node compares equal; a valid tree stays valid, and stays free of 2,2-nodes |
| `Wavl.Tree.Insert` | lib/binary_search_tree/include/lib/binary_search_tree.h:198-239 | insertion keeps the tree valid and puts the node at its place in the sequence |
| `Wavl.Tree.Delete` | lib/binary_search_tree/binary_search_tree.c:437-487 | deletion of any node keeps the tree valid, takes exactly that node out of the sequence and leaves its rank 0 |
| `Wavl.Descend` | lib/binary_search_tree/include/lib/binary_search_tree.h:216-238 | the descent finds the colliding node that all other colliding ones are beneath, or the one free link between smaller and larger nodes, in logarithmically many steps |
| `Wavl.Search` | lib/binary_search_tree/include/lib/binary_search_tree.h:115-131 | a matching node is found exactly if there is one, and it is the one that all others are beneath |
| `Wavl.FindEdge` | lib/binary_search_tree/binary_search_tree.c:409-420 | the first or last node of a subtree, in logarithmically many steps |
| `Wavl.PrevNext` | lib/binary_search_tree/binary_search_tree.c:503-541 | the neighbour in the sequence, or its first or last node from null, in logarithmically many steps up |
| `Wavl.ForEvery` | lib/binary_search_tree/include/lib/binary_search_tree.h:317-322 | repeated bst_next from null visits exactly the in-order sequence |
| `Wavl.HeightWithinRank` | lib/binary_search_tree/binary_search_tree.c:193-265 | the height of a subtree is at most its rank |
| `Wavl.HeightBound` | lib/binary_search_tree/binary_search_tree.c:193-402 | the height of every valid tree is at most twice the logarithm of its size plus one |
| `WavlShapes.JoinWavl` | lib/binary_search_tree/binary_search_tree.c:193-402 | two valid trees of ranks that fit under a new root make a valid tree over the joined sequence |
| `WavlShapes.Balanced` | lib/binary_search_tree/binary_search_tree.c:193-402 | every sequence has a valid tree whose rank is the number of binary digits of its length |
| `WavlShapes.Tilted` | lib/binary_search_tree/binary_search_tree.c:193-402 | some valid tree over a sequence has the next node above a given one, but for the middle of three, and some has the one after that above it, but for the last node and the fifth of six |
| `WavlShapes.MiddleOfThree` | lib/binary_search_tree/binary_search_tree.c:193-402 | every valid tree of three nodes has the middle one at its root |
| `WavlShapes.LastHasOne` | lib/binary_search_tree/binary_search_tree.c:193-402 | the last node of a valid tree has at most its neighbour beneath it |
| `WavlShapes.SixNodes` | lib/binary_search_tree/binary_search_tree.c:193-402 | in no valid tree of six nodes is the fifth above the third |
| `WavlShapes.TopOf` | lib/binary_search_tree/binary_search_tree.c:193-402 | of a stretch of the sequence one node is above all the others |
| `WavlShapes.BeneathOnce` | lib/binary_search_tree/binary_search_tree.c:193-402 | of two nodes at most one is above the other |
| `PageFlags.RoundTrip` | arch/arm64/mmu.c:77-155 | the flags a page is mapped with are those that a query reports |
| `PageFlags.WriteOrExecute` | arch/arm64/mmu.c:77-155 | no descriptor is writable and executable, or executable for user and kernel at once |
| `PageTables.WalkBlock` | arch/arm64/mmu.c:200-226 | all addresses of a block translate through its one descriptor |
| `PageTables.WalkFrame` | arch/arm64/mmu.c:200-226 | a walk depends on the tables below its start only |
| `PageTableSteps.AddWf` | arch/arm64/mmu.c:342-361 | linking a new empty table keeps the tables a tree without sharing |
| `PageTableSteps.AddWalk` | arch/arm64/mmu.c:342-361 | linking a new empty table changes no translation |
| `PageTableSteps.RemoveWalk` | arch/arm64/mmu.c:424-430 | freeing an empty table changes no translation |
| `PageTableSteps.WriteWf` | arch/arm64/mmu.c:432-434 | writing a page or block descriptor, or clearing one, keeps the tables a tree |
| `PageTableLean.TableTranslates` | arch/arm64/mmu.c:375-392 | if no table is empty, every table translates some address |
| `PageTableUnmap.IsClear` | arch/arm64/mmu.c:375-392 | true exactly if every entry is clear |
| `PageTableUnmap.UnmapPt` | arch/arm64/mmu.c:394-454 | exactly the blocks that the range touches lose their translation, nothing else changes, tables that become empty go back to the pool, and entries inside the range are clear |
| `PageTableUnmap.UnmapTwice` | arch/arm64/mmu.c:408-453 | unmapping two adjoining ranges is unmapping their union |
| `PageTableMap.GetPageTable` | arch/arm64/mmu.c:335-373 | the table of an entry, allocated if the entry is clear, which takes one free page; none exactly for a block or without free pages; no translation changes |
| `PageTableMap.Rollback` | arch/arm64/mmu.c:546-551 | unmapping what has been mapped so far restores every translation |
| `PageTableMapper.MapChunk` | arch/arm64/mmu.c:481-533 | one chunk is mapped by a descriptor exactly if its aligned entry is clear, or else through a table exactly if there is room below, and a failure changes no translation |
| `PageTableMapper.MapPt` | arch/arm64/mmu.c:456-551 | succeeds exactly if nothing is in the way and there is a page for each missing table; success changes the translation by exactly the requested range, address by address and with the requested attributes, and takes exactly those pages; failure changes no translation, and a failed mapping of one page has used up the free pages unless something was in its way |
| `PageTableSpace.UnmapExact` | arch/arm64/mmu.c:394-454 | an unmap is exact if and only if no block straddles an end of its range |
| `PageTableSpace.UnmapTakesTooMuch` | arch/arm64/mmu.c:432-434 | for every granule with more than one entry to a table, a state in which unmapping one page takes the next one as well |
| `PageTableSpace.MappedEndsClean` | arch/arm64/mmu.c:546-551 | unmapping a range just mapped is exact |
| `PageTableSpace.TablesReachable` | arch/arm64/mmu.c:335-454 | the allocated tables are exactly those reachable from the root |
| `PageTableSpace.WalkDown` | arch/arm64/mmu.c:202-226 | the loop of the query finds what the walk finds and never panics |
| `PageTableSpace.Aspace.Query` | arch/arm64/mmu.c:163-289 | reports the translation and flags of a valid address, and which error otherwise |
| `PageTableSpace.Aspace.ReachCheck` | arch/arm64/mmu.c:560-571 | the range check in wrapping words accepts exactly the ranges within reach |
| `PageTableSpace.Aspace.MapRange` | arch/arm64/mmu.c:554-582 | the checks of range and alignment and the mapping, with the exact condition of each error |
| `PageTableSpace.Aspace.Map` | arch/arm64/mmu.c:554-669 | the checks and the mapping of a whole request, with the exact condition of each error; after success within the physical addresses a descriptor can hold, each address translates to its own, its descriptor holds exactly what the flags ask for and is global exactly in a kernel space, and no other translation changes; every page accounted for |
| `PageTableSpace.Aspace.Unmap` | arch/arm64/mmu.c:584-609 | the checks and the unmapping of a whole request: an address loses its translation if and only if its block has an address of the range; every page accounted for |
| `PageTableSpace.MapThenQuery` | arch/arm64/mmu.c:163-289 | a query after a successful map reports the physical address and the flags that were asked for |
| `PageTableOutcome.FitsIff` | arch/arm64/mmu.c:487-513 | nothing is in the way of a mapping if and only if nothing in its range is translated and no chunk that a block may map has a table for its entry |
| `PageTableOutcome.RoomIff` | arch/arm64/mmu.c:487-513 | the exact condition under which a mapping is made |
| `PageTableOutcome.LeanRoomIff` | arch/arm64/mmu.c:456-551 | without empty tables a mapping is made if and only if nothing in its range is translated and there is a page for each missing table |
| `PageTableOutcome.MissingBound` | arch/arm64/mmu.c:335-373 | no more tables are missing than one for each page and each level above it |
| `PageTableOutcome.LeaveEmptyTable` | arch/arm64/mmu.c:456-551 | on every granule with more than one entry to a table, a mapping of one page that finds a single free page fails and leaves an empty table in the first entry of the root |
| `PageTableOutcome.EmptyTableBars` | arch/arm64/mmu.c:500-508 | there nothing is translated and no table is missing, and yet no block can be mapped over the empty table, whatever its address |
| `PageTableOutcome.EmptyTableParts` | arch/arm64/mmu.c:500-513 | each entry of that table can be mapped by a block of its own |
| `PageTableRoom.RoomFrame` | arch/arm64/mmu.c:481-533 | what a mapping needs is not changed by mapping earlier entries |
| `AsidAllocator.BusyBound` | kernel/vm/asid.c:92-109 | fewer values in a row are skipped than there are CPUs |
| `AsidAllocator.AllocateKeeps` | kernel/vm/asid.c:85-110 | the first value that collides with no older active space keeps all active identifiers distinct |
| `AsidAllocator.ActivateKeeps` | kernel/vm/asid.c:64-83 | activating a current space, or one active elsewhere, keeps all active identifiers distinct |
| `AsidAllocator.SwitchKeepsTlb` | kernel/vm/asid.c:123-141 | the CPU that switches has at most one owner for each hardware identifier, flushing exactly when the generation differs |
| `AsidAllocator.Allocator.Allocate` | kernel/vm/asid.c:59-111 | the new value is the least one above the last that collides with no older active space, or nothing changes |
| `AsidAllocator.Allocator.Activate` | kernel/vm/asid.c:123-141 | different spaces active on different CPUs keep different hardware identifiers, no space active elsewhere changes its own, and each cached identifier has one owner; when a new word is given and when the CPU flushes, in terms of the stored words |
| `Regions.CmpMeaning` | kernel/vm/vmm.c:291-326 | the comparator in wrapping words says before, after or colliding with guards |
| `Regions.CmpConsistent` | kernel/vm/vmm.c:316-326 | against sorted regions its answers never go back, though it is not transitive through regions smaller than a page |
| `Regions.SortedApart` | kernel/vm/vmm.c:291-326 | regions are disjoint, with a guard page between neighbours unless both do without |
| `Regions.WithinIsUnique` | kernel/vm/vmm.c:1321-1344 | a range within a region collides with no other region |
| `Regions.OnlyGuardTouched` | kernel/vm/vmm.c:1338-1342 | the debug assertion of a lookup of at most one page holds |
| `Regions.BesideIff` | kernel/vm/vmm.c:1337-1342 | for a lookup of any size it holds if and only if the region that is hit begins no more than a page after the address |
| `Regions.NextDecides` | kernel/vm/vmm.c:1321-1344 | a range that begins in a region collides with another one only if it does with the next |
| `Gaps.NextSpotLowest` | kernel/vm/vmm.c:382-442 | the lowest aligned spot of a gap, or none exactly if there is none |
| `Gaps.ScanGap` | kernel/vm/vmm.c:549-603 | the scan counts the pages from the lowest to the highest spot of a gap |
| `Gaps.SpotInGap` | kernel/vm/vmm.c:623-655 | below the scanned count every index gives an aligned spot in the gap, and no panic can happen |
| `Gaps.SpotIndex` | kernel/vm/vmm.c:549-655 | on page alignment every spot of a gap has an index |
| `Spots.FitsFree` | kernel/vm/vmm.c:466-526 | every spot of a gap is a base that an insertion would accept |
| `Spots.FreeFits` | kernel/vm/vmm.c:466-526 | every base that an insertion would accept is a spot of its gap |
| `Spots.ChooseFree` | kernel/vm/vmm.c:677-737 | for any alignment every index below the count gives an aligned, guarded base in range |
| `Spots.ChooseIncreasing` | kernel/vm/vmm.c:677-737 | on page alignment no two indexes choose the same base |
| `Spots.ChooseEvery` | kernel/vm/vmm.c:677-737 | on page alignment every acceptable base is chosen by some index |
| `Spots.LowestFirst` | kernel/vm/vmm.c:677-737 | index 0 is the lowest acceptable base, and there is no choice only if there is no such base |
| `Spots.AllocSpot` | kernel/vm/vmm.c:677-737 | the two passes count and reach the chosen spot |
| `Vmm.CompareConsistent` | kernel/vm/vmm.c:316-343 | the comparator never misleads a descent of the region tree |
| `Vmm.Aspace.Add` | kernel/vm/vmm.c:157-181 | a region is inserted exactly if it lies inside with its end guard and collides with none |
| `Vmm.Aspace.Find` | kernel/vm/vmm.c:1321-1344 | a lookup of any size finds a region if and only if it contains the page and all other colliding regions are beneath it; always if the range does not reach the next region; exactly when the debug assertion holds |
| `Vmm.NextApartTopmost` | kernel/vm/vmm.c:1321-1344 | in every tree a lookup hits the region with the address if the range does not collide with the next region, or it is the middle one of three |
| `Vmm.NextHitMisses` | kernel/vm/vmm.c:1321-1344 | otherwise some tree over the same regions makes it hit another region |
| `Vmm.BesideInEvery` | kernel/vm/vmm.c:1321-1344 | in every tree the debug assertion holds if nothing collides, or if the first colliding region begins no more than a page after the address and the next two do so, do not collide or cannot be above it |
| `Vmm.BesideFailsIn` | kernel/vm/vmm.c:1321-1344 | otherwise it fails in some tree over the same regions |
| `Vmm.LongLookupMisses` | kernel/vm/vmm.c:1321-1344 | a tree of two regions in which a lookup of three pages misses and the debug assertion fails |
| `Vmm.Aspace.AllocRegion` | kernel/vm/vmm.c:747-833 | a specific region is accepted exactly if it fits; any other is placed exactly if some acceptable base exists, and then at one; the debug assertion of the lookup fails for colliding requests only, and when is exact |
| `Vmm.Aspace.AllocAnywhere` | kernel/vm/vmm.c:804-823 | the asserted insertion at the chosen spot succeeds |
| `Vmm.Aspace.FreeRegion` | kernel/vm/vmm.c:1467-1499 | exactly the matching region is removed, or none exactly if none matches |
| `Arenas.InitPageArray` | kernel/vm/pmm.c:138-161 | the pages between the reserved stretches are free, in order, and counted |
| `Arenas.TakeOk` | kernel/vm/pmm.c:489-524 | taking a page changes its flags, both counters and the free list by just that page, and keeps them in agreement and the reserve covered |
| `Arenas.PutOk` | kernel/vm/pmm.c:721-733 | returning a page does so too, to the head of the list and into the reserve it came from |
| `FreeRun.FindFreeRun` | kernel/vm/pmm.c:349-394 | the lowest run of free pages on the alignment asked for, or none exactly if there is none |
| `Pmm.TakeFrom` | kernel/vm/pmm.c:480-529 | one arena gives as many pages as are wanted and available: the run in order if one was found, or else those at the head of the free list |
| `Pmm.AllocLocked` | kernel/vm/pmm.c:447-540 | success takes exactly count free pages, all of mapped arenas if mapped ones are asked for, failure restores flags and counters; when it succeeds, and when with a run, exactly, in terms of the arenas' counters |
| `Pmm.FreeLocked` | kernel/vm/pmm.c:706-738 | exactly the listed pages become free, each into the reserve it came from |
| `Pmm.HeldFreed` | kernel/vm/pmm.c:531-534 | returning what was taken restores the free set, the flags and both counters |
| `Pmm.RunIffOneArena` | kernel/vm/pmm.c:462-529 | pages form a run if and only if the first arena that can serve any of the request can serve all of it |
| `Pmm.RunAcrossArenas` | kernel/vm/pmm.c:462-529 | a contiguous request that succeeds across two arenas |
| `Reserves.ReservePages` | kernel/vm/pmm.c:396-428 | all pages are set aside, or none exactly if too few are free; an arena is used once those before it are exhausted |
| `Reserves.UnreservePages` | kernel/vm/pmm.c:430-445 | pages are released from the reserves as far as there are any, arena by arena |
| `Reserves.AllocRange` | kernel/vm/pmm.c:655-704 | consecutive pages from the address on are taken, and nothing else; it stops short only if no arena from the last one used on can give the next page |
| `Quota.EnoughReserved` | kernel/vm/res_group.c:94-118 | what a thread has taken from its group is set aside in the arenas |
| `Quota.NoRefsNoUse` | kernel/vm/res_group.c:36-46 | a group without references has all its pages back |
| `Quota.AllocKeepsObjs` | kernel/vm/pmm.c:569-601 | newly allocated pages belong to no other object |
| `Quota.FreeKeepsObjs` | kernel/vm/pmm.c:310-320 | freeing an object leaves the pages of the others in use |
| `Quota.Memory.SetAside` | kernel/vm/res_group.c:48-57 | a group is created exactly if its pages can be set aside |
| `Quota.Memory.TakeMem` | kernel/vm/res_group.c:94-118 | memory is taken exactly if the group is not shut down and has it left |
| `Quota.Memory.AllocFromGroup` | kernel/vm/pmm.c:542-615 | an allocation charged to a group, neither for a run nor for mapped pages, never runs out of pages; a failure restores everything |
| `Quota.Memory.FreeObj` | kernel/vm/pmm.c:310-320 | the pages of an object go back to the reserve of its group |
| `Quota.Memory.ReleaseMem` | kernel/vm/res_group.c:120-126 | the asserted use is there to be released |
| `Quota.Memory.Shutdown` | kernel/vm/res_group.c:82-92 | unused pages leave the group and stay set aside until they are released |
| `Quota.Memory.Unreserve` | kernel/vm/pmm.c:430-445 | the assertion that nothing is left holds |
| `Quota.Memory.DropRef` | kernel/vm/res_group.c:36-80 | the last reference destroys a group that is shut down and unused, so the assertions of its destruction hold |
| `Threads.EnqueueOk` | kernel/thread.c:118-140 | inserting a ready thread keeps bitmap and queues in agreement with the thread states |
| `Threads.DequeueOk` | kernel/thread.c:142-153 | removing one does so too |
| `Threads.UnblockOk` | kernel/thread.c:1987-1992 | leaving a wait queue keeps its count the length of its list |
| `Threads.OneCpu` | kernel/thread.c:936-938 | no thread runs on two processors |
| `Scheduler.DeadNotRunning` | kernel/thread.c:936-938 | a dead thread runs on no processor; every operation of the scheduler leaves dead threads dead |
| `Scheduler.FindTop` | kernel/thread.c:748-781 | the first eligible thread of the highest queue that has one |
| `Scheduler.HighestPriority` | kernel/thread.c:875-1016 | the thread that runs next may run there, and no eligible ready thread has a higher priority |
| `Scheduler.SwitchMeaning` | kernel/thread.c:875-1016 | a switch changes the state, processor and used-up quantum of the next thread and the processor of the last one, takes the next one out of its queue, and nothing else |
| `Scheduler.TailGivesWay` | kernel/thread.c:748-781 | a thread at the tail of its queue runs next if and only if nobody else of its priority or a higher one may, and otherwise stays at the tail |
| `Scheduler.HeadGoesFirst` | kernel/thread.c:748-781 | a thread at the head of its queue runs next if and only if it may and nobody of a higher priority may, and otherwise stays at the head |
| `Scheduler.TopAfter` | kernel/thread.c:875-1016 | so it is in the state after every switch, which each operation that switches ensures |
| `Scheduler.FirstInQueue` | kernel/thread.c:748-781 | among threads of one priority the first in the queue is taken |
| `Scheduler.Scheduler.Resched` | kernel/thread.c:875-1016 | the processor goes to that thread, or to its idle thread if no other may run; all invariants hold again, and no ready thread that may run there has a higher priority |
| `Scheduler.Scheduler.Yield` | kernel/thread.c:1027-1048 | the thread runs on if and only if it may and every other ready thread that may has a lower priority; otherwise it is last in its queue |
| `Scheduler.Scheduler.Preempt` | kernel/thread.c:1064-1098 | with quantum left the thread gives way to higher priorities only and stays first in its queue, without it to equal ones as well and goes to the tail; pinned elsewhere it does not go on running |
| `Scheduler.Scheduler.Resume` | kernel/thread.c:484-509 | only a suspended thread is made ready, at the head of its queue, and whether the caller then yields |
| `Scheduler.Scheduler.Exit` | kernel/thread.c:645-679 | those who wait for the thread go to the heads of their queues, the next thread runs, and the one that exits is dead and no longer runs |
| `Scheduler.Scheduler.SetPriority` | kernel/thread.c:1342-1360 | the clamped priority takes effect at once: the thread runs on if and only if it may and nobody of a higher priority may, and otherwise is first in its new queue |
| `Scheduler.Scheduler.SetPinned` | kernel/thread.c:1367-1520 | only this thread is pinned anew; exactly when the processor is preempted, and with what outcome; a thread newly pinned to another processor stops running on this one, and if the processor ran the highest thread before it does so afterwards |
| `Scheduler.Scheduler.Block` | kernel/thread.c:1768-1816 | the thread joins the tail of the wait queue and another runs, or nothing happens without time to wait |
| `Scheduler.Scheduler.WakeOne` | kernel/thread.c:1828-1866 | the first waiter, if any, goes to the head of its run queue; when it runs at once |
| `Scheduler.Scheduler.WakeAll` | kernel/thread.c:1884-1943 | every waiter wakes up and goes to the head of its run queue, one after the other, the queue is empty with count 0, and the next thread is chosen from those queues; each waiter, and nobody else, gets the answer; without waiters nothing changes |
| `Scheduler.Scheduler.UnblockFromWaitQueue` | kernel/thread.c:1972-1998 | a blocked thread leaves its wait queue for the head of its run queue and gets the error, any other is left alone |
| `TimerQueue.WrappedOrder` | include/lk/types.h:61-81 | times in a window of half the range compare like their words |
| `TimerQueue.HalfRangeApart` | include/lk/types.h:61-81 | times half the range apart do not |
| `TimerQueue.Insert` | kernel/timer.c:68-86 | the queue stays sorted, and equal times stay in order of insertion |
| `TimerQueue.DueInsert` | kernel/timer.c:68-86 | a timer of the future leaves those that are due alone |
| `TimerQueue.DueRemove` | kernel/timer.c:213-215 | a cancelled timer is taken out of those that are due |
| `Timers.Arm` | kernel/timer.c:88-139 | setting a timer queues it and keeps every alarm in time |
| `Timers.Disarm` | kernel/timer.c:184-249 | cancelling takes the timer out of its queue and keeps every alarm in time |
| `Timers.EndTick` | kernel/timer.c:252-338 | when the interrupt ends, every timer that was due has fired or was cancelled |
| `Timers.Timers.TimerSet` | kernel/timer.c:88-139 | the whole new state after setting a timer: its time, its place behind those of the same time, and the alarm |
| `Timers.Timers.TimerCancel` | kernel/timer.c:184-249 | the whole new state after cancelling a timer: what is left of the queues in the same order, and the alarm |
| `Timers.Timers.Tick` | kernel/timer.c:252-338 | the interrupt ends; it fires each due timer that is not cancelled before its turn once and in order, and none that is, leaves the head later than now with the alarm set to it; each fired timer that no action touches is queued again for now plus its period if it is periodic and is in no queue otherwise, and every other one that no action touches keeps its place and time |
| `Timers.StoppedNext` | kernel/timer.c:252-338 | a timer cancelled during the callback of another one is not fired after that |
| `Timers.AdvanceAndTick` | kernel/timer.c:252-338 | after any time within the window, an interrupt without other activity fires just the timers that have become due, queues the periodic ones again for one period later, and leaves all other timers alone |
| `Timers.Timers.MoveWindow` | include/lk/types.h:61-81 | the window of live times can follow the clock up to the first timer |
| `Locks.MutexKeeps` | kernel/mutex.c:95-160 | the count is holder, handed-off, queued and timed-out threads, and at most one has or is given the mutex |
| `Locks.MutexRunKeeps` | kernel/mutex.c:95-160 | so over every run |
| `Locks.HandsOver` | kernel/mutex.c:138-160 | a release gives the mutex to the thread that has waited longest, if any |
| `Locks.WaitForNobody` | kernel/mutex.c:110-128 | exactly which step makes a thread wait for a free mutex |
| `Locks.UntimedAwaited` | kernel/mutex.c:95-160 | without timed waits nobody ever waits for a free mutex |
| `Locks.LostWakeUp` | kernel/mutex.c:110-128 | a run with one timed wait that leaves a thread waiting for a free mutex |
| `Locks.FreeStep` | kernel/mutex.c:95-160 | a free mutex is had by somebody after a step if and only if a thread asks for it while none waits and none has yet to take back its count after a timeout |
| `Locks.StuckStays` | kernel/mutex.c:95-160 | a thread that waits without a timeout for a mutex that nobody has waits on in every run, whatever timeouts come, and nobody gets the mutex |
| `Locks.SemKeeps` | kernel/semaphore.c:35-100 | the count is what is available less queued and timed-out threads, and no more is granted than there was |
| `Locks.SemRunKeeps` | kernel/semaphore.c:35-100 | so over every run |
| `Locks.WaitInVain` | kernel/semaphore.c:54-100 | exactly which step makes a thread wait for something available |
| `Locks.UntimedServed` | kernel/semaphore.c:35-100 | without timed waits nobody ever waits for something available |
| `Locks.ForgottenWaiter` | kernel/semaphore.c:84-100 | a run with one timed wait that leaves a thread waiting with a count of 0 |
| `Locks.PostWakes` | kernel/semaphore.c:35-52 | a post wakes the first waiter if and only if the count is negative before |
| `Locks.PostsInVain` | kernel/semaphore.c:35-100 | from a count that is not negative, no run in which no thread joins the queue wakes anybody, and a thread without a timeout goes on waiting |
| `Locks.JoinThenPost` | kernel/semaphore.c:35-100 | after one more wait, a post wakes the forgotten thread if and only if the count was 0 |
| `Locks.Serve` | kernel/semaphore.c:35-100 | over any sequence of calls, those that return success at once and the threads that posts wake are together no more than what was available and what is posted |
| `Locks.MutexLock.Acquire` | kernel/mutex.c:95-133 | the steps of an acquisition up to the wait, with the count, the holder and the queue for each result |
| `Locks.MutexLock.Release` | kernel/mutex.c:138-160 | the steps of a release, with the handoff to the first waiter |
| `Locks.Semaphore.Post` | kernel/semaphore.c:35-52 | the steps of a post: it adds 1 to the count, and whether and which thread it wakes |
| `Locks.Semaphore.Wait` | kernel/semaphore.c:54-100 | the steps of a wait up to the switch: success takes 1 from the count, a refusal changes nothing, and otherwise the thread joins the queue |
| `Locks.Semaphore.TryWait` | kernel/semaphore.c:70-82 | success takes 1 from the count, and a refusal changes nothing |
| `InitLevels.FindNext` | top/init.c:57-92 | the lowest hook not yet called, by level and position |
| `InitLevels.InitLevel` | top/init.c:47-106 | every matching hook exactly once, ordered by level and position |
| `InitLevels.CallsUnique` | top/init.c:47-106 | only one sequence of calls fits |
| `InitLevels.CallsJoin` | top/init.c:47-106 | the calls of adjoining ranges are those of their union |
| `InitLevels.BootIsOneSort` | top/main.c:83-152 | a boot in any number of adjoining ranges is one stable sort of the table |
| `InitLevels.PrimaryBoot` | top/main.c:83-152 | the primary boot sequence is one stable sort of the table |
| `Relocate.MarkedMeaning` | kernel/vm/relocate.c:68-87 | bit i + 1 of a bitmap stands for the i-th word from its base, and no other |
| `Relocate.WordsMeaning` | kernel/vm/relocate.c:45-89 | the words of a table are its addresses and, for each bitmap, the words that its bits mark from 63 words behind those of the bitmap before it, or from behind the last address |
| `Relocate.RelocateKernel` | kernel/vm/relocate.c:45-89 | the words of the table are shifted by the distance of the bases, in order |
| `Relocate.ShiftMeaning` | kernel/vm/relocate.c:38-43 | every word is changed once for each occurrence, modulo 2 to the 64, and no other word |
| `Relocate.RelocateCompose` | kernel/vm/relocate.c:45-89 | relocating from a to b and from b to c is relocating from a to c |
| `Relocate.UpdateRelocationEntries` | kernel/vm/relocate.c:27-36 | even entries move down by the distance, odd ones stay |
| `Relocate.UpdatedTable` | kernel/vm/relocate.c:27-36 | the updated table denotes the same words, each moved by the distance, if and only if nothing is marked before the first address or nothing moves |
| `Relocate.BeginMatters` | kernel/vm/relocate.c:45-89 | what a table denotes depends on where it begins if and only if something is marked before the first address |
| `Relocate.BitmapFirst` | kernel/vm/relocate.c:27-36 | a table for which it does not |

## Left out

- Update in place: tree nodes, page tables, arenas and queues are values in a field of their owner, rewritten step by step; aliasing is through addresses only, and two owners never share memory.
- The heap objects behind pointers: freeing and reusing node, region, object and thread structures, stacks, cookies, names, statistics and logs.
- Barriers, TLB instructions and register access; cached translations appear only as the ghost sets of `AsidAllocator`.
- `arm64_mmu_map_pt` with replace set: on failure it unmaps the replaced prefix and is no rollback.
- PageTableSpace.Aspace.Map: what is mapped is not stated for a request whose physical addresses go on beyond the output address mask; the code checks the first one only and then mixes address bits into the attributes.
- Descriptors are records of their fields; the attribute bits and the address bits are assumed disjoint.
- Page tables made by memalign, and panics on descriptors that no code writes.
- The 64-bit counter of identifiers is assumed not to wrap, and the CPUs to be no more than the hardware identifiers.
- Regions reserved for others to allocate in (VMM_FLAG_NO_PHYSICAL), tagging, the mapping of objects, and the destruction of an address space.
- Vmm.Aspace.Find: requests whose end plus a page reaches beyond 2 to the 64 are excluded, as the comparator then wraps.
- An architecture that overrides arch_mmu_pick_spot.
- Page counts and indexes of arenas wider than 32 bits are not truncated; clearing of pages is not modelled.
- Reserves.AllocRange: arenas before the last one used are not searched again, so a range that goes on in an earlier arena of the list is cut off there.
- The joining of object and group references is counted, not kept as lists; a holder is assumed to keep its reference during its own allocations.
- Inter-processor interrupts, cpu_priority and the preemption timer: they decide when a processor reschedules, about which nothing is promised.
- thread_unblock, thread_join and thread_detach; waking with reschedule from an idle thread, which would queue it.
- Timers of all CPUs are modelled, but only one CPU is in the timer interrupt at a time, and waiting for a running callback is a precondition of cancelling.
- Timers.Timers.Tick: actions during callbacks that would trip an assertion, or leave the window of times, are passed over.
- Configurations without a dynamic timer.
- Destruction of mutexes, semaphores and wait queues with waiters, which the code calls invalid.
- Hooks are recorded as called; what they do is not modelled.
- Relocated words are assumed not to overlap each other or the table.
