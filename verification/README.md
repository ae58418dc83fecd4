# FOS kernel: paging, processes, heap and scheduling

This project models the parts of the FOS teaching kernel (32-bit x86) that carry its hardest
promises, and proves them.

- **Demand paging.** One environment's working set is three lists (spare elements, ActiveList, a FIFO,
  and SecondList, an LRU list), next to page tables, reference-counted frames, the page file and disk
  contents. `page_fault_handler`, `allocateMem`, `freeMem`, `env_create` and `env_free` are written
  twice: as methods over mutable fields in the order of the C code (`PageFaultHandler`, `Loader`), and
  as functions on values (`Paging`, `UserMemory`, `EnvCreate`, `EnvFree`). The methods are proved equal
  to the functions; what the kernel promises is proved of the functions, over whole runs of any number
  of environments (`Machine`, `Conservation`, `PinnedLoss`), and carried back to the mutable state
  (`ProcessLife`). `SegmentImage` adds the byte loops with which env_create fills memory and the page
  file, and `ProgramBytes` and `ProgramRuns` follow a program's own bytes from there through paging.
  `SecondListSize` compares working sets of two sizes from their creation on; `RunTrace` shows that a
  kernel run of loads and stores moves the lists exactly as the trace of its non-heap pages does, and
  reads in as many pages, so that the comparison is one of kernel runs.
  `FaultEffect`, `FreeMemEffect` and `LoadPlaces` give the whole state after a fault, after `freeMem` and
  the lists after `env_create`, page by page. `DiskFull` says what happens
  to a stack page for which there is no disk frame.
- **Frames.** Reference counts, ownership and the frame estimate (`KernelState`, `RefCounts`,
  `FrameEstimate`), and when the code panics (`Progress`, `CreateNeeds`, `AllocNeeds`).
- **Air reservation programs.** N customers, K clerks and the main program as interleaved steps over
  counting semaphores and shared memory (`AirModel`); an invariant made of sums over the processes
  (`AirAccounts`) and of what the shared arrays mean (`AirBooks`, `AirProtocol`); termination and the
  final state (`AirEnding`); and why the clerks share one lock order (`AirLockOrder`). For the last the
  model lets the clerks of some customers take the two locks the other way round; the programs as they
  are are the case in which none does. The semaphore bodies in the kernel are stubs, so waiting and
  signalling follow their declared meaning: wait decrements and blocks below zero, signal increments
  and wakes one waiter, any one. The finished-semaphores of the model are one per id; the C code finds
  them by printing the id, and `AirNames` shows that this leads to the model's semaphores if and only if
  there are at most 100 customers.
- **User heap.** The best-fit table and the page file entries its system calls leave (`UserHeap`),
  its blocks and how they join (`HeapBlocks`), and its runs on the kernel's own page file (`HeapAndKernel`).
- **Lists and scheduler.** The intrusive list macros on real links (`IntrusiveList`), the round-robin
  scheduler built on them (`Scheduler`), where each call puts each environment (`Places`), and its
  fairness (`RoundRobin`).
- **Quicksort and numbers.** The in-place quicksort (`QuickSort`); `printnum`, `strtol` and `ltostr`
  with 32-bit longs (`Numbers`), told on characters and digits (`NumberForms`).

`Sequences` and `TwoLists` hold what the others share; `TwoLists` treats the two LRU lists as one list.

Where code and comments disagree the model follows the code:

- `malloc` (lib/uheap.c:4) is announced as first fit; it is best fit, the first among equals.
- `allocateMem` (kern/memory_manager.c:793-794) is said to allocate nothing in main memory; it maps a
  frame for every page. Those pages are in no list and neither `freeMem` nor `env_free` gives their
  frames back, so `EnvFreeConserves` says exactly what is lost.
- 16 times USER_TOP wraps in 32 bits, so the stack region the handler accepts starts at 0xA00EC000.
- The error returns after `allocate_frame` cannot be taken: it panics when no frame is free.

False statements, each with the exact condition under which the code meets it:

- `map_frame` keeps the reference counts exact: `RefCounts.MapFrameExactIff`, with a state in
  `HiddenEntryBreaksExact`.
- `calculate_required_frames` ends: `FrameEstimate.FirstLoopEndsIff`, with an input in `FirstLoopNeverEnds`.
- A larger SecondList extends a smaller one from the start: `SecondListSize.CreatedExtendsIff`, with an
  input in `ExtendsFailsAtCreation`. That it never costs more page-ins is true all the same.
- A process gives back all its frames when it exits: `Conservation.CreateRunExitIff`, with a run in
  `PinnedLoss.PinnedFrameIsLost`.
- The page file gets the bytes of a segment's file part: `SegmentImage.FaithfulIff`; of all segments:
  `AllArriveIff`, with a program in `AdjacentOverwritten`.
- A byte stored in a new stack page survives the page's eviction: `DiskFull.SurvivesIff`,
  with a run in `StoredByteIsLost`.
- `malloc` keeps the table a partition into non-empty intervals: `UserHeap.MallocInStepIff`.
- `free` keeps heap and page file in step: `UserHeap.FreeInStepIff`, with a run in `FreeNullLosesPages`.
- `free` leaves no two free blocks side by side: `HeapBlocks.FreeKeepsApartIff`.
- `strtol` undoes `ltostr`: `Numbers.FormatThenParse`. `strtol` undoes `printnum`: `Numbers.PrintThenParse`.
- The finished-semaphores have different names, and each is found under its own: `Numbers.NamesDistinctIff`
  and `AirNames.FoundIff`.

## Model

| member | source | states |
|---|---|---|
| TwoLists.FaultedIsMoveToFront | PROJECT_template/kern/trap.c:485-693 | After a fault, ActiveList followed by SecondList is the faulting page moved to the front of the old list, cut to the working set size; limits and distinctness still hold. |
| TwoLists.PlacementShape | PROJECT_template/kern/trap.c:487-517 | Inserting at ActiveList's head is move-to-front while ActiveList has room. |
| TwoLists.PromotionShape | PROJECT_template/kern/trap.c:532-541 | Exchanging a SecondList page with the active tail is move-to-front. |
| TwoLists.DemotionShape | PROJECT_template/kern/trap.c:542-574 | Demoting the active tail, and dropping SecondList's tail when it is full, is move-to-front of a page in neither list, cut to the working set size. |
| TwoLists.UnlistedDeletes | PROJECT_template/kern/memory_manager.c:822-898 | Releasing a listed page deletes just that page from the one list and keeps the order of the rest, refilling ActiveList from SecondList. |
| TwoLists.AccessKeepsContained | PROJECT_template/kern/trap.c:519-693 | One access keeps the same ActiveList, a SecondList that holds the shorter one in order and leaves pages out only when that is full, and causes no extra page-in. |
| TwoLists.ExtendsStays | PROJECT_template/kern/trap.c:519-693 | A longer SecondList that extends a shorter one at the start extends it after every trace, and never costs more page-ins. |
| TwoLists.NoBeladyAnomaly | PROJECT_template/kern/trap.c:519-693 | For one active size, every trace of accesses to pages the lists hold (RunTrace.RunIsTrace: those outside the heap), and any start that env_create can make (CreatedContained), a larger SecondList gives the same ActiveList, holds the smaller SecondList in order, and never costs more page-ins. |
| SecondListSize.CreatedIs | PROJECT_template/kern/user_environment.c:390-430 | The lists of a new environment depend on the program and the two sizes alone. |
| LoadPlaces.ResidentIff | PROJECT_template/kern/user_environment.c:390-441 | A segment's page is in memory after env_create if and only if it is among the first six of the segment at 0x200000 of a program other than tpp, and its place among all pages so admitted is below the working set size less one. |
| LoadPlaces.ResidentOnly | PROJECT_template/kern/user_environment.c:390-441 | Nothing else is in memory but the stack page. |
| LoadPlaces.WhereResident | PROJECT_template/kern/user_environment.c:411-425 | The stack page leads ActiveList; the pages with the first places fill ActiveList from its tail but for one place, the next ones SecondList from its tail. |
| SecondListSize.CreatedContained | PROJECT_template/kern/user_environment.c:397-430 | One program started under two SecondList sizes has the same ActiveList and, under the larger size, a SecondList that holds the smaller one in order. |
| SecondListSize.CreatedExtendsIff | PROJECT_template/kern/user_environment.c:397-430 | At the start the larger SecondList extends the smaller one if and only if the program's pages fit the smaller working set, the sizes are equal, or the smaller has no SecondList. |
| SecondListSize.ExtendsFailsAtCreation | PROJECT_template/kern/user_environment.c:397-430 | A two-page segment with one active page and SecondList sizes 1 and 2: the larger list does not extend the smaller one. |
| SecondListSize.LargerListsNeverCost | PROJECT_template/kern/user_environment.c:397-430 | From the lists one program starts with under two SecondList sizes, no trace costs more page-ins under the larger one, and the larger extends the smaller throughout if and only if it does so at the start. |
| RunTrace.HeapIsPinned | PROJECT_template/kern/trap.c:390-475 | An access to a heap page that does not panic finds it present, so no list moves. |
| RunTrace.RunIsTrace | PROJECT_template/kern/trap.c:390-693 | Over a kernel run in which an environment releases no page and does not end, among any others, its lists are those the trace of its accessed non-heap pages leaves, and the accesses that find their page not mapped are the trace's page-ins. |
| RunTrace.LargerSecondListNeverCosts | PROJECT_template/kern/trap.c:519-693 | Two environments created for one program and one active size, in any two runs of any two kernels in which they touch the same non-heap pages in order: same ActiveList, the smaller SecondList held in order by the larger, and no more pages read in under the larger. |
| PageFaultHandler.Environment.constructor | PROJECT_template/kern/user_environment.c:315-341 | All elements start spare, both LRU lists empty. |
| PageFaultHandler.Environment.Partition | PROJECT_template/kern/trap.c:487-489 | The three lists hold every working set element exactly once. |
| PageFaultHandler.KernelMemory.PageFault | PROJECT_template/kern/trap.c:479-693 | The handler, branch by branch on mutable lists, page tables and frames, panics exactly when the specification does and otherwise leaves exactly its lists and kernel state. |
| PageFaultHandler.KernelMemory.PlacementFault | PROJECT_template/kern/trap.c:487-517 | A spare element and room in ActiveList: the page goes to ActiveList's head. |
| PageFaultHandler.KernelMemory.SecondListFault | PROJECT_template/kern/trap.c:519-601 | The page is in SecondList: it becomes present at ActiveList's head and the active tail is demoted. |
| PageFaultHandler.KernelMemory.DemotingFault | PROJECT_template/kern/trap.c:542-574 | ActiveList is full, a spare element remains: the active tail is demoted and the page placed. |
| PageFaultHandler.KernelMemory.ReplacingActiveFault | PROJECT_template/kern/trap.c:602-644 | No spare element and no SecondList: the active tail is written back if modified and replaced. |
| PageFaultHandler.KernelMemory.ReplacingSecondFault | PROJECT_template/kern/trap.c:645-691 | No spare element: SecondList's tail is written back if modified and evicted, the active tail demoted. |
| PageFaultHandler.KernelMemory.Access | PROJECT_template/kern/trap.c:390-475 | A user access: a table fault first if the table is missing, then a page fault, until the page is present; it is Touch, whose success and effect TouchOkIff and FaultEffect fix. |
| PageFaultHandler.KernelMemory.AllocateFrame | PROJECT_template/kern/memory_manager.c:419-450 | Takes the first free frame, or panics and changes nothing. |
| PageFaultHandler.KernelMemory.DecrementReferences | PROJECT_template/kern/memory_manager.c:470-475 | A 16-bit decrement that frees the frame at zero. |
| PageFaultHandler.KernelMemory.MapFrame | PROJECT_template/kern/memory_manager.c:573-640 | Table, replaced mapping, reference and entry of map_frame. |
| PageFaultHandler.KernelMemory.UnmapFrame | PROJECT_template/kern/memory_manager.c:687-710 | Clears the entry and drops one reference of its frame. |
| PageFaultHandler.KernelMemory.PfUpdateEnvPage | PROJECT_template/kern/file_manager.c:260-304 | Writes the frame to the page's page file entry. |
| PageFaultHandler.KernelMemory.PfReadEnvPage | PROJECT_template/kern/file_manager.c:323-350 | Reports a missing entry, else fills the frame and clears MODIFIED. |
| PageFaultHandler.KernelMemory.AllocateMem | PROJECT_template/kern/memory_manager.c:767-795 | The loop files and maps each page, as the specification does. |
| PageFaultHandler.KernelMemory.FreeMem | PROJECT_template/kern/memory_manager.c:800-903 | The loops over the page file, both lists and the tables do what FreeMem says. |
| PageFaultHandler.KernelMemory.FreeEnvironment | PROJECT_template/kern/user_environment.c:831-892 | Empties both lists, frees tables, directory and page file, as EnvFree says. |
| Loader.LoadPages | PROJECT_template/kern/user_environment.c:381-441 | The segment loop with its bound, six for the segment at 0x200000 of a program other than tpp: elements in index order, one active place left for the stack, as many pages as LoadCount says. |
| Loader.FileSegment | PROJECT_template/kern/user_environment.c:601-667 | The four loops write a segment's pages to the page file in order, or panic for want of space. |
| Loader.CreateEnvironment | PROJECT_template/kern/user_environment.c:479-761 | The whole of env_create on mutable state is EnvCreate, panics included. |
| Paging.TouchKeeps | PROJECT_template/kern/trap.c:390-693 | Every access that does not panic keeps list, PRESENT, page file, ownership and stored-byte invariants, and leaves other environments alone. |
| Paging.PageInFaultKeeps | PROJECT_template/kern/trap.c:487-693 | A fault that brings a page in keeps them: a modified victim is on disk before its frame is reused. |
| Paging.PromotionKeeps | PROJECT_template/kern/trap.c:519-601 | A fault on a SecondList page keeps them: MODIFIED survives the move between the lists. |
| Progress.TouchOkIff | PROJECT_template/kern/trap.c:390-693 | For any number of free frames: an access succeeds if and only if its page is present; or is below the stack top and in SecondList; or is below it, in the page file or the stack, and the free frames, with the one a full working set gives up, cover the page, its missing table (which must be free before the eviction) and the missing disk table of a new stack page. It says how many frames are left. |
| Progress.TouchAbsent | PROJECT_template/kern/trap.c:390-693 | Which panic an access to a page in neither state ends in: no free frame, or an illegal address. |
| FaultEffect.PromotionChanges | PROJECT_template/kern/trap.c:593-601 | A fault on a SecondList page needs no frame, sets PRESENT on it, clears it on the active tail, and changes nothing else. |
| FaultEffect.PageInChanges | PROJECT_template/kern/trap.c:487-691 | The whole state after any other fault: the victim's entry is gone, its bytes on disk if modified, the active tail hidden, the page mapped with its bytes from disk, filed if it had no entry and a disk frame is left; every other word, entry and byte is as before. |
| Progress.HandlerMapsEmptyEntry | PROJECT_template/kern/trap.c:492-502 | Whenever the handler calls map_frame the page's entry is zero. |
| CreateNeeds.CreateOkIff | PROJECT_template/kern/user_environment.c:479-761 | env_create panics if and only if the working set is empty, or fewer frames are free than it fills words (pages in memory, tables and disk tables, a shared table counted once), or fewer disk frames than different pages it files; otherwise it takes exactly those frames. |
| CreateNeeds.CreateTakes | PROJECT_template/kern/user_environment.c:479-761 | With a disk frame left for the stack page, it fills just these words and files just the segments' pages and that one. |
| CreateNeeds.SegmentFilesAre | PROJECT_template/kern/user_environment.c:601-660 | The pages filed for the segments are those of FilePages, segment by segment. |
| CreateNeeds.CreateTables | PROJECT_template/kern/user_environment.c:376-441 | Among these words are page tables for exactly the tables of the pages in memory, and disk tables for exactly those of the pages filed. |
| AllocNeeds.AllocateMemOkIff | PROJECT_template/kern/memory_manager.c:767-795 | allocateMem panics if and only if frames fall short of the new words, disk frames of the pages without an entry, or no frame is left when a page comes up that is mapped already; it takes exactly these. |
| UserMemory.AllocateMemKeeps | PROJECT_template/kern/memory_manager.c:767-795 | allocateMem keeps every invariant and files exactly the range; its pages are pinned. |
| UserMemory.FreeMemByPage | PROJECT_template/kern/memory_manager.c:800-898 | Removing all page file entries first and releasing pages after equals releasing page by page. |
| UserMemory.FreeMemKeeps | PROJECT_template/kern/memory_manager.c:800-898 | freeMem keeps every invariant, takes exactly the range out of lists and page file, and no other byte is lost. |
| FreeMemEffect.FreeMemChanges | PROJECT_template/kern/memory_manager.c:800-903 | Exactly the pages of the range that are in a list leave memory, exactly the tables of such pages go that have no mapped page left, and nothing else changes in memory or on disk. |
| KernelState.AllocateFrameOwned | PROJECT_template/kern/memory_manager.c:419-450 | The frame handed out is on no list, in no table and at count zero. |
| KernelState.UnmapFrameOwned | PROJECT_template/kern/memory_manager.c:687-710 | Unmapping keeps single ownership and accounts for the same frames. |
| KernelState.TakeDiskFrameOwned | PROJECT_template/kern/file_manager.c:122-136 | A disk frame is handed out once, never frame 0, and the total stays the same. |
| KernelState.PfRemoveOwned | PROJECT_template/kern/file_manager.c:352-369 | Removing a page frees its disk frame once: a repeated removal changes nothing. |
| KernelState.PfAddUndone | PROJECT_template/kern/file_manager.c:205-258 | Removing a page just filed restores the page file and its free list. |
| KernelState.MapUndone | PROJECT_template/kern/memory_manager.c:573-710 | Unmapping a page just mapped restores the page tables and the free list. |
| SegmentImage.WriteFilePart | PROJECT_template/kern/user_environment.c:598-646 | The byte loops over the temporary page leave exactly the specified image of every page of the file part. |
| SegmentImage.FaithfulIff | PROJECT_template/kern/user_environment.c:598-646 | The page file gets every byte of the file part, whatever it holds, if and only if the segment starts on a page boundary, or its file part reaches a later page, or is empty. |
| SegmentImage.InOnePage | PROJECT_template/kern/user_environment.c:634-644 | Otherwise each byte is replaced by the one 4096 bytes further on. |
| SegmentImage.PageBytes | PROJECT_template/kern/user_environment.c:598-646 | Every byte of every page of the file part on disk: file bytes in place, zeros before and after them, or the shifted bytes of the failing case up to the file part's end. |
| SegmentImage.WriteSegments | PROJECT_template/kern/user_environment.c:577-660 | The loop over the segments leaves in each page what the last segment that files it puts there: its assembled bytes, or the zero page past its file part. |
| SegmentImage.FilesIsFilePages | PROJECT_template/kern/user_environment.c:601-660 | The pages so written are those EnvCreate.EnvCreate files. |
| SegmentImage.CopyToMemory | PROJECT_template/kern/user_environment.c:443-462 | The copy into memory puts the file part's bytes in the pages loaded, zeros after it up to the last loaded page's end, and touches nothing else. |
| SegmentImage.AllArriveIff | PROJECT_template/kern/user_environment.c:577-660 | The page file gets the file bytes of all segments, whatever they are, if and only if each segment alone meets FaithfulIff's condition and none files a page holding file bytes of a segment before it. |
| SegmentImage.AscendingClear | PROJECT_template/kern/user_environment.c:577-660 | Page-disjoint segments in ascending order never overwrite each other. |
| SegmentImage.AdjacentOverwritten | PROJECT_template/kern/user_environment.c:634-644 | Two adjacent one-page segments in descending order: each alone would arrive, but the second overwrites the first. |
| ProgramBytes.EnvCreateInitial | PROJECT_template/kern/user_environment.c:376-467 | After env_create each file byte on which the copies in memory and on disk agree is in its page's frame and on disk, or on disk alone; the stack page is zero and marked modified. |
| ProgramRuns.ProgramFindsItsFile | PROJECT_template/kern/user_environment.c:577-660 | If no segment is cut or overwritten on its way to the page file (AllArriveIff's condition), a file byte that nothing wrote or released since env_create is read back as the file has it after every run, whatever its page went through. |
| EnvCreate.FilePagesCover | PROJECT_template/kern/user_environment.c:601-667 | Every page of a segment is filed, and at most one page past its end. |
| EnvCreate.EnvCreateOk | PROJECT_template/kern/user_environment.c:479-761 | env_create builds a well-formed environment from free frames and disk frames only, and disturbs no other environment. |
| EnvFree.EnvFreeConserves | PROJECT_template/kern/user_environment.c:831-892 | env_free returns everything once, except exactly the frames of mapped heap pages; nothing is lost if and only if there are none. |
| Machine.StepKeeps | PROJECT_template/kern/trap.c:479-693 | Every operation of every environment keeps the whole invariant; disk frames are conserved, and frames too but for what exit loses. |
| Machine.RunKeeps | PROJECT_template/kern/trap.c:479-693 | The invariant holds after every run. |
| Machine.PagingIsInvisible | PROJECT_template/kern/trap.c:479-693 | After any run a load returns the value last stored at that address, or the program's own byte where env_create's copies in memory and on disk agree, through placements, demotions, evictions and reloads. |
| DiskFull.SurvivesIff | PROJECT_template/kern/trap.c:602-644 | With a working set of one page, a byte stored in a new stack page is read back after the page's eviction if and only if a disk frame was free when the page was started; nothing panics either way. |
| DiskFull.StoredByteIsLost | PROJECT_template/kern/trap.c:628-634 | From boot with one disk frame: whatever is stored in the second stack page, zero is read after its eviction. |
| Machine.BootGood | PROJECT_template/kern/file_manager.c:87-105 | The state after boot satisfies the invariant. |
| Conservation.OwnRun | PROJECT_template/kern/memory_manager.c:767-903 | After any operations of one environment it has a mapped heap page if and only if one of them asked for one; all others' tables and files are as they were. |
| Conservation.CreateRunExitIff | PROJECT_template/kern/user_environment.c:831-892 | Create, any operations, exit: the free-frame list holds the same frames as before, each once, if and only if no operation asked for a heap page; else exactly the frames of its mapped heap pages are missing. The free disk-frame list holds the same frames in any case. |
| PinnedLoss.PinnedFrameIsLost | PROJECT_template/kern/memory_manager.c:779-789 | From boot, a process that allocates one heap page, releases it and exits leaves the free-frame list shorter for good. |
| ProcessLife.Run | PROJECT_template/kern/trap.c:390-693 | On mutable state, after every operation of every run the three lists hold each working set element once, and kernel and lists are those of the run on values. |
| ProcessLife.Live | PROJECT_template/kern/user_environment.c:479-892 | env_create, any run and env_free on mutable state end in the kernel state of the run on values, so what is proved of runs is true of it. |
| RefCounts.MapFrameExactIff | PROJECT_template/kern/memory_manager.c:573-640 | map_frame, whether it finds the page table or makes it, keeps references equal to the number of entries naming each frame if and only if the entry was zero or present. |
| RefCounts.OverwriteBreaksExact | PROJECT_template/kern/memory_manager.c:627-637 | Overwriting any non-zero entry without unmapping it breaks some count. |
| RefCounts.HiddenEntryBreaksExact | PROJECT_template/kern/memory_manager.c:627-637 | An exact state with a mapped, non-present entry: mapping over it leaves the old frame counted once and named by nothing. |
| RefCounts.CountsWrap | PROJECT_template/kern/memory_manager.c:456-475 | The 16-bit count: from one to zero with the frame put first in the free list, from zero to 0xFFFF with nothing freed, from 0xFFFF to zero by one more mapping. |
| RefCounts.RunKeepsExact | PROJECT_template/kern/memory_manager.c:419-700 | Counts stay exact, and free frames at zero, over every run of allocations, maps, unmaps and table creations. |
| RefCounts.OwnedIsExact | PROJECT_template/kern/memory_manager.c:419-475 | In every state of the paging invariant references equals the number of entries naming the frame. |
| FrameEstimate.CalculateRequiredFrames | PROJECT_template/kern/memory_manager.c:926-962 | The two 32-bit address loops count the missing tables and the unmapped pages of every range that ends at 0xFFC00000 or below; for a range that ends above, the first loop is still running after any number of rounds. |
| FrameEstimate.FirstLoopEndsIff | PROJECT_template/kern/memory_manager.c:935 | For a range that does not wrap, the first loop's address leaves it at some round if and only if the range ends at 0xFFC00000 or below. |
| FrameEstimate.FirstLoopNeverEnds | PROJECT_template/kern/memory_manager.c:935 | One byte at 0xFFC00000: no round leaves the range. |
| FrameEstimate.EstimateIsExact | PROJECT_template/kern/memory_manager.c:926-962 | Mapping every unmapped page of the range takes exactly that many frames, tables included. |
| AirAccounts.StepKeepsBalance | PROJECT_template/kern/semaphore_manager.h:16-32 | Every step keeps each semaphore value and counter at its initial value minus what the processes have taken. |
| AirAccounts.StepKeepsQueued | PROJECT_template/kern/semaphore_manager.h:16-32 | As many processes are blocked on a semaphore as its value is below zero. |
| AirProtocol.Mutex | PROJECT_template/user/tst_air_clerk.c:78-141 | No two processes are inside the same critical section. |
| AirProtocol.SomeoneInLine | PROJECT_template/user/tst_air_clerk.c:58-65 | A clerk about to dequeue finds queue_out below queue_in. |
| AirBooks.PutKeeps | PROJECT_template/user/tst_air_customer.c:59-69 | An enqueue has room and overwrites nobody in line. |
| AirBooks.Cnt1Keeps | PROJECT_template/user/tst_air_clerk.c:81-87 | Counting a booking in puts exactly that customer on the flight. |
| AirBooks.ServeKeeps | PROJECT_template/user/tst_air_clerk.c:145-150 | A customer signalled finished was not finished before, and has its flights or finds one sold out. |
| AirProtocol.StepKeepsInv | PROJECT_template/user/tst_air_clerk.c:54-155 | Every step of every process, whichever waiter it wakes, keeps the invariant. |
| AirProtocol.ReachableBookings | PROJECT_template/user/tst_air_clerk.c:58-141 | In every reachable state seats left plus booked is the capacity unless the lock is held; counters, indices and arrays are in bounds; booked customers are distinct; a served type 3 customer has both flights or neither. |
| AirEnding.StepRank | PROJECT_template/user/tst_air_customer.c:47-89 | Every step lowers the measure. |
| AirEnding.CanStep | PROJECT_template/kern/semaphore_manager.h:16-32 | A process that is not blocked or done can move: a signal that must wake somebody finds somebody. |
| AirEnding.LocksFree | PROJECT_template/user/tst_air_clerk.c:112-141 | Unless clerks of both lock orders can meet, in a state where nobody can move all four locks are free. |
| AirEnding.EveryRunEndsWell | PROJECT_template/user/tst_air.c:203-223 | Unless clerks of both lock orders can meet, which in the programs as they are they never can, every interleaving is bounded, and cannot go on if and only if every customer is served once and all semaphores have the asserted values, cust_ready = -K and clerk = K among them. |
| AirEnding.EveryoneFliesIff | PROJECT_template/user/tst_air.c:174-201 | When a run ends, everyone has all flights ordered if and only if each flight has a seat for everyone who ordered it. |
| AirLockOrder.LockOrderIff | PROJECT_template/user/tst_air_clerk.c:112-141 | For any customers whose clerks would take flight2CS first: all runs that cannot go on end well if and only if there is one clerk, or no two customers of type 3 of whom one is crossed and one is not. |
| AirLockOrder.MixedOrdersDeadlock | PROJECT_template/user/tst_air_clerk.c:112-141 | If both orders can meet, some run from the start ends with nobody able to move and a customer never served: the shared order is needed. |
| AirLockOrder.StepKeepsCircular | PROJECT_template/user/tst_air_clerk.c:112-141 | Two clerks that each hold the lock the other waits for do so for ever, whatever the others do. |
| AirLockOrder.SharedOrderIsSafe | PROJECT_template/user/tst_air_clerk.c:54-155 | With the order of the programs as they are, every run that cannot go on has ended well. |
| AirNames.GetSemaphoreObjectId | PROJECT_template/kern/semaphore_manager.c:88-102 | The search loop returns the first semaphore with the name, or -1 if there is none. |
| AirNames.FoundIff | PROJECT_template/user/tst_air.c:106-126 | Among the semaphores the main program creates, in its order, each is the first with its name if and only if there are at most 100 customers. |
| AirNames.NamesAreFaithful | PROJECT_template/user/tst_air_customer.c:72-76 | For up to 100 customers, in every reachable state the name a process waits on or signals leads to the model's semaphore. |
| UserHeap.HeapTable.Malloc | PROJECT_template/lib/uheap.c:30-97 | The search and split on the array leave exactly the specified table, page file entries and address; an unused table entry is needed only for a split. |
| UserHeap.HeapTable.Free | PROJECT_template/lib/uheap.c:109-177 | The three loops leave exactly the specified table (FreedIs says what it is); it panics if and only if no entry starts at the address. |
| UserHeap.BestIsBest | PROJECT_template/lib/uheap.c:47-65 | The search finds the smallest adequate free entry, the first among equals, or there is none. |
| UserHeap.MallocGives | PROJECT_template/lib/uheap.c:30-97 | NULL exactly when no free entry is large enough; else the best fit's start, and its first pages, not filed before, are the only ones filed. |
| UserHeap.FreedPartition | PROJECT_template/lib/uheap.c:130-175 | Freeing a live entry keeps the table a partition of the heap and takes exactly its pages out of the allocated ones. |
| HeapBlocks.FreedIs | PROJECT_template/lib/uheap.c:130-175 | The table after a free: joined to the free entry before it if there is one, whatever follows; else to the free entry behind it; else free on its own; no other entry changes. |
| HeapBlocks.FreeKeepsApartIff | PROJECT_template/lib/uheap.c:130-175 | Free blocks that never touch keep apart after a free if and only if the freed one is not between two of them. |
| HeapBlocks.MallocKeepsApart | PROJECT_template/lib/uheap.c:68-97 | malloc keeps free blocks apart. |
| HeapBlocks.MallocBlocks | PROJECT_template/lib/uheap.c:68-97 | malloc turns the best fit into one used block of the size and one free block of the rest; every other block stays. |
| HeapBlocks.FreeThenMalloc | PROJECT_template/lib/uheap.c:30-175 | A malloc of the joined block's length after a free returns the first free block of exactly that length, the joined one if there is no other. |
| UserHeap.MallocInStepIff | PROJECT_template/lib/uheap.c:30-97 | malloc always files exactly what it allocates, and keeps the table a partition into non-empty intervals if and only if the size rounds to at least one page or nothing is free. |
| UserHeap.FreeInStepIff | PROJECT_template/lib/uheap.c:109-177 | free keeps the partition if and only if it is not free(NULL) with a merged-away entry in the table, and keeps the filed pages right if and only if it is not that or nothing is allocated. |
| UserHeap.FreeNullLosesPages | PROJECT_template/lib/uheap.c:114-146 | A run of two mallocs and a free after which free(NULL) drops a page still allocated from the page file. |
| UserHeap.RunStaysInStep | PROJECT_template/lib/uheap.c:30-177 | After every run of proper calls the entries partition the heap and the pages of the calls' system calls are exactly the allocated ones. |
| HeapAndKernel.HeapStaysFiled | PROJECT_template/lib/uheap.c:75-121 | After every run of malloc, free, loads and stores on the kernel's own state, the heap pages in the kernel's page file are exactly those of the allocated entries, and the entries partition the heap. |
| HeapAndKernel.NewProgramAgrees | PROJECT_template/kern/user_environment.c:479-761 | A new environment with an unused heap table starts so. |
| UserHeap.AllocateMemFiles | PROJECT_template/kern/memory_manager.c:767-795 | The kernel's allocateMem files exactly the pages the heap says. |
| UserHeap.FreeMemUnfiles | PROJECT_template/kern/memory_manager.c:800-816 | The kernel's freeMem removes exactly the pages the heap says. |
| IntrusiveList.List.InsertHead | PROJECT_template/inc/queue.h:238-246 | Links, ends and size describe the element followed by the old sequence. |
| IntrusiveList.List.InsertTail | PROJECT_template/inc/queue.h:252-260 | Links, ends and size describe the old sequence followed by the element. |
| IntrusiveList.List.InsertAfter | PROJECT_template/inc/queue.h:202-212 | The element comes right after the given one. |
| IntrusiveList.List.InsertBefore | PROJECT_template/inc/queue.h:219-232 | The element comes right before the given one. |
| IntrusiveList.List.Remove | PROJECT_template/inc/queue.h:266-278 | Only that element leaves, and its own links are cleared. |
| IntrusiveList.List.Find | PROJECT_template/kern/sched.c:72-83 | LIST_FOREACH meets the elements in order and returns the first with the id. |
| IntrusiveList.MoveAll | PROJECT_template/kern/sched.c:499-513 | LIST_FOREACH whose body removes the current element and links it elsewhere meets every original element once, in order. |
| IntrusiveList.ChainSplit | PROJECT_template/inc/queue.h:133-136 | Two parts linked at their ends are one linked sequence, and conversely. |
| Scheduler.Scheduler.NewEnv | PROJECT_template/kern/sched.c:393-400 | A created environment goes to the head of the NEW queue, and nothing else changes. |
| Scheduler.Scheduler.FosScheduler | PROJECT_template/kern/sched.c:92-161 | The running environment goes to the queue's head and the tail runs next, on the linked lists. |
| Scheduler.Scheduler.RunEnvById | PROJECT_template/kern/sched.c:413-437 | A new environment becomes ready; a stopped scheduler starts. |
| Scheduler.Scheduler.RunEveryNew | PROJECT_template/kern/sched.c:319-330 | All new environments become ready, in order. |
| Scheduler.Scheduler.ExitEnvById | PROJECT_template/kern/sched.c:439-496 | The lists after the exit of a ready or running environment; Places says who is where and who runs next. |
| Scheduler.Scheduler.ExitEveryReady | PROJECT_template/kern/sched.c:499-514 | All ready environments go to the exit queue. |
| RoundRobin.CallKeepsEveryone | PROJECT_template/kern/sched.c:92-145 | No call loses or duplicates an environment. |
| RoundRobin.CallKeepsProper | PROJECT_template/kern/sched.c:211-271 | No environment is ever in two of the queues, or in one while running. |
| Places.CallMoves | PROJECT_template/kern/sched.c:319-514 | Where each call takes each environment: a new one is made, what is started is ready or running, what exits is in the exit queue and nowhere else, and everyone else stays. |
| Places.NextRuns | PROJECT_template/kern/sched.c:92-161 | Who runs after each call: the one ready longest after a tick, a start while stopped, or the exit of the running one; nobody else's call changes it. |
| Places.ExitedForGood | PROJECT_template/kern/sched.c:439-514 | An exited environment stays in the exit queue and never runs again, over every run. |
| Places.TickQueues | PROJECT_template/kern/sched.c:105-145 | A tick runs the one ready longest and makes the running one the youngest ready; the order of the others stays. |
| Places.ExitReadyQueues | PROJECT_template/kern/sched.c:452-486 | A ready environment that exits leaves its place and leads the exit queue; the order of the others stays. |
| Places.ExitRunningQueues | PROJECT_template/kern/sched.c:476-494 | A running environment that exits leads the exit queue, and the rest is a tick without it. |
| Places.RunQueues | PROJECT_template/kern/sched.c:413-437 | A started environment leaves its place among the new ones and is the youngest ready one. |
| Places.NewRunsNext | PROJECT_template/kern/sched.c:319-400 | An environment just made and started with all new ones runs right after those that were ready. |
| Places.MadeLastRunsFirst | PROJECT_template/kern/sched.c:319-330 | Of new environments started together the one made last runs first. |
| Places.ExitAllQueues | PROJECT_template/kern/sched.c:499-514 | All ready ones lead the exit queue, the one ready longest in front; the running one goes on. |
| RoundRobin.BoundedWaiting | PROJECT_template/kern/sched.c:46-145 | With d environments ahead of it, an environment runs at or before the (d+1)-th scheduler call, whatever arrives or exits. |
| RoundRobin.NoOvertaking | PROJECT_template/kern/sched.c:46-145 | An environment behind another never runs before it, unless one of them is made to exit. |
| QuickSort.Partition | PROJECT_template/user/arrayOperations_quicksort.c:57-70 | The partition loop ends; elements strictly between the final j and i equal the pivot, smaller ones lie before, greater ones after. |
| QuickSort.Rounds | PROJECT_template/user/arrayOperations_quicksort.c:59-68 | The loop makes progress although an exchange advances neither index. |
| QuickSort.QSort | PROJECT_template/user/arrayOperations_quicksort.c:51-77 | For every choice of pivots the part is sorted, a rearrangement of itself, and all else untouched. |
| QuickSort.QuickSort | PROJECT_template/user/arrayOperations_quicksort.c:45-48 | The array is sorted and a permutation of what it was. |
| QuickSort.SortedUnique | PROJECT_template/user/arrayOperations_quicksort.c:45-77 | The result does not depend on the pivots. |
| Numbers.SprintBuf.PrintNum | PROJECT_template/lib/printfmt.c:36-51 | The recursion appends padding and digits to the bounded buffer and counts what was cut. |
| Numbers.PrintedIsPadded | PROJECT_template/lib/printfmt.c:36-51 | The output is padding and the numeral; its length is the greater of width and digits. |
| NumberForms.NumeralDigits | PROJECT_template/lib/printfmt.c:36-51 | The numeral is all digits of the number in any base from 2 to 16, letters small, without a zero in front. |
| Numbers.ParseLong | PROJECT_template/lib/string.c:180-225 | The loops over blanks, sign, prefix and digits compute Strtol, which StrtolForms fixes. |
| NumberForms.StrtolForms | PROJECT_template/lib/string.c:180-225 | For blanks, an optional sign, "0x" in base 0 or 16 or a leading zero in base 0, and digits in either case: the value in 32 bits and the index of the first character that is no digit of the base. |
| Numbers.PrintThenParse | PROJECT_template/lib/string.c:180-225 | strtol of printnum's output, base 10 or 16, padded by blanks or zeros, reads all of it and yields the number in 32 bits: the number itself if and only if it is below 2^31. |
| Numbers.LongToString | PROJECT_template/lib/string.c:227-265 | The buffer is written backwards, reversed in place and terminated; the rest is untouched. |
| Numbers.FormatThenParse | PROJECT_template/lib/string.c:180-265 | strtol undoes ltostr if and only if the value is above LONG_MIN and has no zero digit above its units. |
| NumberForms.LtostrDigits | PROJECT_template/lib/string.c:227-265 | For every value above LONG_MIN ltostr writes the sign and the digits below the first zero above the units. |
| NumberForms.LeastLongText | PROJECT_template/lib/string.c:227-265 | What it writes for LONG_MIN. |
| Numbers.NamesDistinctIff | PROJECT_template/user/tst_air_customer.c:72-76 | The names built from ids 0 to n-1 are all different if and only if n is at most 100. |

## Left out

- Initial contents of pages other than file bytes and the first stack page: at boot just 1024 bytes of the zero page are cleared, so no other byte of a new page is promised.
- TLB flushes are no-ops and a disk page is written at once; IDE, console, interrupts and trap entry are outside the model.
- An access that panics ends the run: the element and the frame it leaves outside the lists are not followed further.
- The size wrap of freeMem on addresses past 2^32, and heap ranges that leave the user heap, are not modelled.
- Swapping page tables out, the unused list macro LIST_CONCAT, and the unused page_last_WS_index after loading.
- The kernel heap, the buddy allocator, page buffering, MLFQ scheduling, shared objects and moveMem are stubs or disabled.
- Semaphore bodies: stubs in the kernel; their declared meaning is taken. Under a lock a step may make several accesses: a counter is read and written in one step (the customer counter in two), and the step that takes a seat also marks the customer booked.
- The status field of an environment, the quantum, sched_kill_env and sched_kill_all, and the loss of a NEW environment in sched_exit_env, whose pointer is NULL after its loop.
- The 100 places of the semaphore array, which hold the air programs' semaphores for up to 93 customers.
- Environment ids (envid2env): the scheduler's environments have distinct ids given from outside.
- UserHeap.HeapTable.Malloc: requires an unused entry in the table when a larger entry is to be split, because dead entries are never reused and the code does not check for the table's end.
- Machine.StepKeeps: a load or store that would file a new stack page is followed only while a disk frame is free, because the code ignores that there is none and loses such a page's bytes (DiskFull.SurvivesIff).
- KthElement, the debugger's stab_binsearch, and all other test programs.
