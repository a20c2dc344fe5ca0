# Proofs about the OS/161 kernel

This project models the parts of the OS/161 teaching kernel in which something can go subtly wrong, and proves what
they do for every input, every run and every interleaving. `dafny verify dfyconfig.toml` checks all of it.

| files | what they model |
|---|---|
| `Words`, `Products`, `Digits`, `Shifts`, `QDivRem`, `Multiply`, `SignedDivide` | 64-bit arithmetic on a 32-bit machine: Knuth's Algorithm D on arrays of half-words, two-level multiplication with carries by comparison, signed division, and the identity that ties the four routines together. Words are naturals, and every wrap-around is written out. |
| `Freelist`, `PageRefs`, `HeapInvariant`, `HeapWrites`, `KHeap`, `HeapStats`, `KMalloc`, `HeapFaults` | the kernel heap: freelists inside pages, the two lists of page descriptors, the bitmaps of descriptors, and any number of threads inside `kmalloc` and `kfree` at once, with small and large blocks; and runs in which it goes wrong. |
| `SchedState`, `SchedStep`, `Scheduler`, `Turns`, `Migration` | threads on run queues, wait channels and zombie lists; context switches on any number of cpus; in which order threads run and are woken; load balancing. |
| `Synch`, `SharedBuffer` | semaphores, locks and condition variables, and the bounded buffer built on them. |
| `Hangman`, `Deadlocks` | the deadlock detector, and the locks and spinlocks that call it. |
| `Fips180`, `RoundConstants`, `WorkedExamples`, `Sha256`, `Sha256Stream` | SHA-256 and SHA-224: the standard, where its constants come from and its worked examples, the rolled and the unrolled round loop, and the streaming interface. |
| `ThreadList`, `LinkedList` | the two kinds of doubly linked list, as nodes on the heap. |
| `Common` | what several of these share. |
| `Spl` | interrupt levels, spinlocks, and what context switches do to their accounts. |

## How it is modelled

Objects the C code changes in place are classes or arrays, and each C function that changes them is a method proved
against what it does to their abstract value. Where several cpus or threads are at work, a method is one atomic step:
the code between two points at which its spinlock is free. What a thread remembers across such a point is in its
position or its arguments, and `Step`, `Take` and `Run` take such steps in any order by anyone. Between two steps of a
thread anything the others can do may happen. Each of these machines has a pure state, a function `Next` that says what
a step makes of it, and `Reached`, the state a sequence of steps leads to; the methods are proved to compute `Next`, and
`Run` to reach exactly that state through states that all satisfy the invariant. The heap, whose inner choices depend on
its lists, has a relation between the states before and after instead (`KMalloc.StepDoes`).

Ghost fields hold abstract values, such as the sequence of descriptors on a list, the set of blocks handed out or the
place of a thread, and the invariants tie them to the real fields.

The environment is a parameter: `alloc_kpages` gives no page or one nobody has (`KMalloc.Fresh`), and other cpus
do any list of operations in each window of a migration (`Migration.RunQueues.Window`). An assertion or panic of the
source that a method's caller can provoke is a result of the method, with its exact condition; those that guard the
data structures themselves follow from the invariants.

## What came out

- The trial-digit theorem does not need the normalisation the comments ask for: the digit is the true one or one more as
  soon as the divisor has two digits. Normalisation is what bounds the correction loop by two turns and keeps the words
  from wrapping.
- `kmalloc` rounds a request up to whole pages in 32 bits. Above 2^32 - 4096 bytes the sum wraps and no page is asked
  for (`KMalloc.PagesCover`). `alloc_kpages(0)` of this kernel answers with an address and reserves nothing
  (group_project/src/kern/arch/mips/vm/dumbvm.c:108-119), so the caller shares its memory with whoever gets the page
  next, and its `kfree` frees a block of theirs (`HeapFaults.WrappedRequest`).
- `allocpageref` sets a descriptor's bit before it asks for a page of descriptors, and leaves it set when there is none.
  After 256 such failures `kfree` of an innocent block panics (`KMalloc.LeakedRootPanics`); `KHeap.Heap.FreePageRef` has
  the exact condition, and `KMalloc.System.Step` shows that, on callers that free only what they have, once, the
  allocator panics if and only if the block freed is the last one in use of a page behind such a root. These are the
  only descriptors ever lost (`KMalloc.LostIsLeaked`).
- A boot thread keeps the state `S_READY` it was created with while it runs, until it is first switched to: a thread
  that runs is in state `S_RUN` if and only if it is not one of these (`SchedState.BootThreadIsReady`; the state at boot
  is `Scheduler.BootState`). The invariant has these threads in a set of their own (`booting`).
- `linked_list_prepend` breaks the order of the keys exactly when the first key is the least int.
- In `thread_consider_migration` the own queue can only have grown between the count and the eviction, so the list it
  pops from is never empty; and since the current thread, once skipped, is the last victim, it is met at most once.
- `kfree` notices a double free only when the block is the first free one of its page (`KHeap.Heap.PutBlock`). After its
  stores the page has a freelist if and only if the block was not free (`Freelist.PushedIffLive`); and when the count of
  free blocks gets to that of the page, the page is given back with a block in use. `HeapFaults.FreedTwice` and
  `HeapFaults.FreedTwiceInUse` are runs in which that happens.
- A buffer of size 0 is created without complaint; a producer and a consumer on it both go to sleep, and nobody in a
  call can go on (`SharedBuffer.NoSlot`).
- The deadlock detector reports a call if and only if with it some actors wait forever, and under the locks that use it
  its other panics cannot happen (`Deadlocks.ReportedIffForever`, `Deadlocks.Run`).

## Model

| member | source | states |
|---|---|---|
| QDivRem.QDivRem | group_project/src/common/gcc-millicode/qdivrem.c:67-263 | for all 64-bit operands: the quotient and remainder of the naturals when the divisor is not 0, and the deliberate trap exactly when it is |
| QDivRem.TrialDigit | group_project/src/common/gcc-millicode/qdivrem.c:185-210 | D3: the digit found is below 2^16 and is the greatest digit whose product with the top two divisor digits stays within the top three of the window; the correction runs at most twice |
| QDivRem.TestMeansTooBig | group_project/src/common/gcc-millicode/qdivrem.c:205 | the loop test, computed in wrapping 32-bit words, holds exactly when the digit is too big |
| QDivRem.LargeRemainder | group_project/src/common/gcc-millicode/qdivrem.c:191 | the note that once rhat reaches B the digit is small enough |
| QDivRem.TrialDigitNearlyTrue | group_project/src/common/gcc-millicode/qdivrem.c:185-210 | Knuth's theorem over any digit weight p: a digit judged by its top three and two digits is the true one or one more; it needs the divisor's top two digits to be at least B, not the normalised B/2 |
| QDivRem.MultiplySubtract | group_project/src/common/gcc-millicode/qdivrem.c:211-223 | D4: the window less digit times divisor; the borrow reported is a full B^(n+1), and the digits outside the window stay |
| QDivRem.BorrowOut | group_project/src/common/gcc-millicode/qdivrem.c:217-221 | one wrapped word splits into the digit stored and the borrow the next digit owes |
| QDivRem.AddBack | group_project/src/common/gcc-millicode/qdivrem.c:232-237 | D6: the window plus the divisor, with the carry out of the top digit dropped |
| QDivRem.TestIsExact | group_project/src/common/gcc-millicode/qdivrem.c:224-238 | D5: the subtraction borrows exactly when the trial digit is one too big, and one add-back then makes up the true remainder |
| QDivRem.DivideDigit | group_project/src/common/gcc-millicode/qdivrem.c:182-239 | one pass of D3 to D6 leaves the true remainder in the window and returns the true quotient digit |
| QDivRem.DigitLoop | group_project/src/common/gcc-millicode/qdivrem.c:176-240 | after the last pass the digits in q are the whole quotient and u holds the whole remainder, with zeros in front |
| QDivRem.OneMoreDigit | group_project/src/common/gcc-millicode/qdivrem.c:182-240 | the loop invariant: quotient so far, times what is left to the right, times the divisor, plus what is in u, is the dividend |
| QDivRem.NormalShift | group_project/src/common/gcc-millicode/qdivrem.c:169-171 | the shift count leaves the top divisor digit between B/2 and B |
| QDivRem.Normalise | group_project/src/common/gcc-millicode/qdivrem.c:169-175 | both numbers are multiplied by 2^d, nothing falls out on the left, and the first window is below the divisor |
| QDivRem.ShortDivide | group_project/src/common/gcc-millicode/qdivrem.c:123-150 | the unrolled one-digit division gives the quotient and remainder of the whole dividend |
| QDivRem.DividendReaches | group_project/src/common/gcc-millicode/qdivrem.c:157-158 | the search for the first nonzero dividend digit stops before m gets negative |
| QDivRem.LongDivide | group_project/src/common/gcc-millicode/qdivrem.c:157-262 | skipping leading zeros, zeroing and placing the quotient, the shifts and the digit loop together divide exactly |
| Shifts.Shl | group_project/src/common/gcc-millicode/qdivrem.c:265-279 | the in-place digit shift multiplies the number by 2^sh when the product fits |
| Shifts.ShlValue | group_project/src/common/gcc-millicode/qdivrem.c:265-279 | for any digits: the shift multiplies, less exactly the bits that leave the top digit |
| Shifts.Unshift | group_project/src/common/gcc-millicode/qdivrem.c:248-254 | the un-normalising loop divides r * 2^d by 2^d and leaves a zero digit in front |
| Multiply.LMulQ | group_project/src/common/gcc-millicode/muldi3.c:183-241 | the exact 64-bit product of any two 32-bit words, the borrowing middle term included |
| Multiply.AddUp | group_project/src/common/gcc-millicode/muldi3.c:224-232 | adding x << 16 to a pair of words, with the carry found by comparison, is addition modulo 2^64 |
| Multiply.SubtractUp | group_project/src/common/gcc-millicode/muldi3.c:219-222 | subtracting x << 16, with the borrow found by comparison, is subtraction modulo 2^64 |
| Multiply.MulDI3 | group_project/src/common/gcc-millicode/muldi3.c:99-164 | the signed product modulo 2^64 for all operands, the most negative included |
| Multiply.HighOfProduct | group_project/src/common/gcc-millicode/muldi3.c:132-158 | the discarded upper bits of high and mid do not matter: the product is right modulo 2^64 |
| SignedDivide.DivTruncates | group_project/src/common/gcc-millicode/divdi3.c:44-62 | the quotient rounded toward zero, wrapped to 64 bits; it is the quotient of the integers if and only if the operands are not the most negative number and -1 |
| SignedDivide.OnlyZeroTraps | group_project/src/common/gcc-millicode/divdi3.c:58 | division and remainder trap exactly for divisor 0 |
| SignedDivide.ModTakesSign | group_project/src/common/gcc-millicode/moddi3.c:45-62 | the remainder is below the divisor in magnitude, is zero or has the dividend's sign, and completes the truncated quotient |
| SignedDivide.AddWraps | group_project/src/common/gcc-millicode/adddi3.c:46-56 | word sums with a compared carry add modulo 2^64 |
| SignedDivide.DivisionIdentity | group_project/src/common/gcc-millicode/divdi3.c:44-62 | quotient times divisor plus remainder, by the four routines themselves, gives the dividend back for every nonzero divisor, also where the quotient wraps |
| Freelist.BlocksApart | group_project/src/kern/vm/kmalloc.c:130-134 | two blocks of a page do not overlap and lie inside it |
| Freelist.AlignedIsBlock | group_project/src/kern/vm/kmalloc.c:1142-1145 | the alignment test of kfree accepts exactly the addresses of blocks |
| Freelist.SizesArePowers | group_project/src/kern/vm/kmalloc.c:131 | the block sizes are the powers of two from 16 to half a page |
| Freelist.FreelistBound | group_project/src/kern/vm/kmalloc.c:148-154 | an acyclic freelist of nfree blocks has at most the page's blocks, and has all of them when it is that long |
| Freelist.PopChain | group_project/src/kern/vm/kmalloc.c:972-990 | taking the head leaves a well-formed freelist; its offset is the invalid one exactly when it is empty |
| Freelist.PushChain | group_project/src/kern/vm/kmalloc.c:1164-1186 | putting back a block that is not free leaves a well-formed freelist with that block first |
| Freelist.PushTwice | group_project/src/kern/vm/kmalloc.c:1164-1186 | putting back a block that is free already leaves no freelist: no sequence of blocks is one |
| Freelist.PushedIffLive | group_project/src/kern/vm/kmalloc.c:1164-1186 | after the stores the page has a freelist if and only if the block was not free |
| PageRefs.PackedWord | group_project/src/kern/vm/kmalloc.c:156-160 | address and block type come back out of the word they share |
| PageRefs.UnlinkSame | group_project/src/kern/vm/kmalloc.c:878-884 | storing through the pointer that points at a descriptor takes it, and nothing else, off its size list |
| PageRefs.UnlinkAll | group_project/src/kern/vm/kmalloc.c:886-892 | the same for the list of all pages |
| PageRefs.CountFlip | group_project/src/kern/vm/kmalloc.c:282-284 | setting or clearing one bit moves the number of set bits by one |
| HeapInvariant.JoinLists | group_project/src/kern/vm/kmalloc.c:1058-1062 | a new descriptor put in front of both lists is on each once, and on its own size list only |
| HeapInvariant.DropLists | group_project/src/kern/vm/kmalloc.c:870-893 | what remove_lists does to both lists keeps every other page on both, once and in order |
| KHeap.BlockTypeFor | group_project/src/kern/vm/kmalloc.c:899-915 | the least block size that holds the request, and the panic exactly for requests above 2048 bytes |
| KHeap.LittleWaste | group_project/src/kern/vm/kmalloc.c:131 | less than half of a block is wasted on a request above 16 bytes |
| KHeap.Heap.constructor | group_project/src/kern/vm/kmalloc.c:215 | the allocator starts with no page and no descriptor, and the invariant holds |
| KHeap.Heap.FindFree | group_project/src/kern/vm/kmalloc.c:962-968 | the first page on the list with a free block, or NULL exactly when every listed page of the type is full |
| KHeap.Heap.TakeBlock | group_project/src/kern/vm/kmalloc.c:970-1001 | the first free block is handed out; it was not in use, and only its page's freelist changes |
| KHeap.Heap.SubpageAllocate | group_project/src/kern/vm/kmalloc.c:953-1014 | the part before the window: a block of the wanted type nobody has, or the lock is dropped for a new page exactly when all are full |
| KHeap.Heap.ClaimPageRef | group_project/src/kern/vm/kmalloc.c:258-300 | the first clear bit of the first root not full is set, and NULL means that every root is full |
| KHeap.Heap.CutPage | group_project/src/kern/vm/kmalloc.c:1046-1056 | the cutting loop threads every block of the page, last one first, and writes nowhere else |
| KHeap.Heap.ListPage | group_project/src/kern/vm/kmalloc.c:1037-1062 | a new page goes in front of both lists with all its blocks free |
| KHeap.Heap.UsePage | group_project/src/kern/vm/kmalloc.c:1037-1065 | and its first block is handed out, with the invariant whole again |
| KHeap.Heap.AddPage | group_project/src/kern/vm/kmalloc.c:1026-1065 | the lock held again with a new page: it is used, or a page of descriptors is needed, or there is no descriptor left, exactly when every root is full |
| KHeap.Heap.RootPageArrived | group_project/src/kern/vm/kmalloc.c:220-253 | after the second window: no page (the bit set before stays set, unless another thread supplied one), a surplus page to give back, or the page of descriptors is installed |
| KHeap.Heap.SurplusGone | group_project/src/kern/vm/kmalloc.c:242-250 | after the surplus page is given back the allocation goes on with the other thread's page |
| KHeap.Heap.FillDeadbeef | group_project/src/kern/vm/kmalloc.c:45-55 | every word of the block and no other |
| KHeap.Heap.FindPage | group_project/src/kern/vm/kmalloc.c:1120-1138 | the listed page the address is in, or NULL exactly when it is in none |
| KHeap.Heap.PutBlock | group_project/src/kern/vm/kmalloc.c:1157-1186 | for any block of a page: the assertion fails exactly when it is the first free one; a block not free goes in front of the freelist; one free elsewhere goes there too, and the page has no freelist any more |
| KHeap.Heap.RemoveLists | group_project/src/kern/vm/kmalloc.c:870-893 | the descriptor leaves both lists, and the rest keep their order |
| KHeap.Heap.FreePageRef | group_project/src/kern/vm/kmalloc.c:305-339 | the bit is cleared, unless a root passed on the way has set bits and no page: exactly then it panics |
| KHeap.Heap.ReleasePage | group_project/src/kern/vm/kmalloc.c:1189-1196 | a page that counts as wholly free leaves the lists and its descriptor is free again; what it needs is lists and bitmaps in order, not freelists |
| KHeap.Heap.SubpageFree | group_project/src/kern/vm/kmalloc.c:1072-1208 | for any pointer: not ours exactly when no listed page contains it; a panic under an exact condition (FreePanics); a block in use is free afterwards, and its page is given back when it was the last one; of a block that is free already, and not the first, the page loses its freelist or is given back with a block in use |
| KHeap.Heap.AllocateThenFree | group_project/src/kern/vm/kmalloc.c:921-1208 | an allocation from a listed page followed by kfree of the block restores lists, freelists, descriptors and bitmaps exactly |
| HeapStats.FreeMap | group_project/src/kern/vm/kmalloc.c:760-783 | the walk along the freelist marks exactly its blocks |
| HeapStats.SubpageStats | group_project/src/kern/vm/kmalloc.c:747-800 | a block is marked free exactly when nobody has it, and the number returned is the total size of the blocks in use |
| HeapStats.GetUsed | group_project/src/kern/vm/kmalloc.c:827-851 | with no coremap count: the total size of all live blocks of the heap; otherwise that plus the count less the heap's pages |
| HeapStats.AllLive | group_project/src/kern/vm/kmalloc.c:827-837 | every block in use is on one listed page |
| HeapStats.BlocksDisjoint | group_project/src/kern/vm/kmalloc.c:921-1208 | any two blocks of the heap, live or free, are disjoint; each is aligned to its size and inside one page |
| HeapStats.RoomEnough | group_project/src/kern/vm/kmalloc.c:899-915 | a block handed out for a request has room for it |
| HeapWrites.NewPageOnly | group_project/src/kern/vm/kmalloc.c:1046-1056 | what cutting a new page writes is no part of any block on the lists |
| HeapWrites.FreedOnly | group_project/src/kern/vm/kmalloc.c:1157-1169 | what kfree writes is part of no block but the one freed |
| HeapFaults.FreedTwice | group_project/src/kern/vm/kmalloc.c:1159-1186 | a concrete run: a block freed twice, unnoticed, after which its page has no freelist |
| HeapFaults.FreedTwiceInUse | group_project/src/kern/vm/kmalloc.c:1188-1196 | a concrete run: a block freed twice, after which the page is given back while another of its blocks is in use |
| HeapFaults.WrappedRequest | group_project/src/kern/vm/kmalloc.c:1239-1246 | a concrete run: the request of 2^32 - 1 bytes is answered with an address whose page others have the blocks of, and the kfree of it frees one of those |
| KMalloc.System.constructor | group_project/src/kern/vm/kmalloc.c:171-215 | the first state satisfies the conservation invariant |
| KMalloc.System.StartMalloc | group_project/src/kern/vm/kmalloc.c:1235-1253 | kmalloc below half a page up to its end or its first window: a block that fits and nobody has, or waiting, and that exactly when no page of the block type has a free block |
| KMalloc.System.PagesCame | group_project/src/kern/vm/kmalloc.c:1014-1026 | alloc_kpages returns to a waiting thread, with a page nobody has or with none |
| KMalloc.System.PageInHand | group_project/src/kern/vm/kmalloc.c:1026-1066 | the rest of an allocation with its page: a block exactly when there is a descriptor and its root has a page; NULL exactly when every root is full; otherwise the wait for a page of descriptors, for the first root that is not full |
| KMalloc.System.RootInHand | group_project/src/kern/vm/kmalloc.c:220-253 | the rest of an allocation after the window for a page of descriptors: NULL exactly when alloc_kpages gave none and nobody else has supplied one; a page to give back exactly when somebody has; otherwise a block |
| KMalloc.System.SurplusInHand | group_project/src/kern/vm/kmalloc.c:242-250 | the rest of an allocation after the surplus page is given back: always a block |
| KMalloc.System.StartLarge | group_project/src/kern/vm/kmalloc.c:1236-1247 | kmalloc of half a page or more: out of memory, or an address; when the request did not wrap, a run of whole pages that is now with the caller |
| KMalloc.System.StartFree | group_project/src/kern/vm/kmalloc.c:1256-1264 | kfree of a small block the caller has: it is nobody's afterwards; the panic of freepageref exactly when it is the last block in use of a page for whose descriptor a root without a page is passed |
| KMalloc.System.StartLargeFree | group_project/src/kern/vm/kmalloc.c:1264-1266 | kfree of a large block: subpage_kfree says that it is not its own and changes nothing, and the address is that of a page |
| KMalloc.System.RunBack | group_project/src/kern/vm/kmalloc.c:1266 | its pages are given back, and are then nobody's |
| KMalloc.System.PageBack | group_project/src/kern/vm/kmalloc.c:1193-1196 | the page is given back outside the lock, and is then nobody's |
| KMalloc.System.TakeRelock | group_project/src/kern/vm/kmalloc.c:1026-1066 | a thread with its pages in hand takes the lock again: the whole effect on all threads, pages, descriptors and blocks, with the exact condition for each answer, and no block of anybody is written |
| KMalloc.System.TakeFree | group_project/src/kern/vm/kmalloc.c:1256-1271 | the same for kfree of anything the caller has, with the same exact condition for the panic |
| KMalloc.System.TakeSmallFree | group_project/src/kern/vm/kmalloc.c:1256-1264 | of a small block: the panic exactly when it is among the blocks kfree would panic on |
| KMalloc.System.TakeLargeFree | group_project/src/kern/vm/kmalloc.c:1264-1266 | of a large one: never a panic |
| KMalloc.System.Step | group_project/src/kern/vm/kmalloc.c:921-1271 | every step any thread can take, large requests included: only that thread's waiting changes; a block given has room for the request and was nobody's; no word of a small or large block that stays with its caller is written; it panics if and only if it is a kfree of a block in Trapped, the last one in use of a page whose descriptor cannot be given back |
| KMalloc.System.Run | group_project/src/kern/vm/kmalloc.c:921-1271 | in every interleaving of any number of kmalloc and kfree calls of any size and their windows, each state on the way conserves pages, descriptors and large blocks, and consecutive states differ by exactly the step taken; a run that panics ends in a kfree of a block trapped in its last state, and no other step frees one |
| KMalloc.LeakedRootPanics | group_project/src/kern/vm/kmalloc.c:285-290 | a concrete run without any caller error in which kfree panics: 256 allocations that find no page of descriptors fill the first root's bits |
| KMalloc.PagesCover | group_project/src/kern/vm/kmalloc.c:1238-1240 | the pages asked for cover the request if and only if it is at most 2^32 - 4096; above that, kmalloc asks for none |
| KMalloc.LargestRequest | group_project/src/kern/vm/kmalloc.c:1239 | the input 0xffffffff that shows it |
| KMalloc.System.WholePagesAreNotOurs | group_project/src/kern/vm/kmalloc.c:1264-1267 | in every reachable state a large block is in no page of the subpage allocator, so kfree gives it back whole |
| KMalloc.System.LargeBlocksApart | group_project/src/kern/vm/kmalloc.c:921-1271 | and shares no word with another large block, with any block of the subpage allocator, live or free, or with a page of descriptors |
| KMalloc.NullOnlyWithout | group_project/src/kern/vm/kmalloc.c:1026-1035 | in any run, a thread that has its page is answered NULL only when no descriptor is left, or when alloc_kpages gave it no page of descriptors and nobody else has supplied one |
| KMalloc.DescriptorsConserved | group_project/src/kern/vm/kmalloc.c:258-339 | every step takes, moves and gives back descriptors one for one, but the one that gives up for want of a page of descriptors, which leaks one |
| KMalloc.LostIsLeaked | group_project/src/kern/vm/kmalloc.c:258-339 | in every state of every run the descriptors in use are those of threads, those of listed pages, and as many as steps have leaked |
| KMalloc.NoneLeft | group_project/src/kern/vm/kmalloc.c:258-300 | every root is full if and only if pages, threads and leaks have all 4096 descriptors |
| KMalloc.NobodyStuck | group_project/src/kern/vm/kmalloc.c:921-1271 | a thread outside can make any call, and one that waits has a next step, whatever alloc_kpages answers |
| KMalloc.FirstKmalloc | group_project/src/kern/vm/kmalloc.c:953-1066 | the first kmalloc there is: with a page and a page of descriptors it gets its block |
| SchedState.OnePlace | group_project/src/kern/thread/thread.c:458-741 | in every state that keeps the invariant each thread is in exactly one place, and there once |
| SchedState.StateMatches | group_project/src/kern/thread/thread.c:610-635 | while the run queue lock of its cpu is free, a thread's t_state says which kind of place it is in, both ways; it is S_RUN exactly for a current thread that is not a boot thread |
| SchedState.CurrentOnce | group_project/src/kern/thread/thread.c:666-674 | no thread is current on two cpus |
| SchedState.BootThreadIsReady | group_project/src/kern/thread/thread.c:118-153 | a thread its cpu runs is in state S_RUN if and only if it is not a boot thread that was never switched to; such a thread is in state S_READY |
| Scheduler.Machine.constructor | group_project/src/kern/thread/thread.c:163-260 | the cpus at boot, each running the thread made for it, in state S_READY |
| Scheduler.BootState | group_project/src/kern/thread/thread.c:118-153 | the state at boot: a thread that runs, with no lock held, in state S_READY |
| Scheduler.Machine.EnterSwitch | group_project/src/kern/thread/thread.c:584-601 | thread_switch up to having its run queue lock; called in an interrupt of an idle cpu it returns and nothing changes |
| Scheduler.Machine.PlaceSelf | group_project/src/kern/thread/thread.c:603-634 | the current thread goes last on its run queue, its wait channel or the zombie list; a yield returns unswitched exactly when the run queue is empty |
| Scheduler.Machine.DropWchanLock | group_project/src/kern/thread/thread.c:628 | the channel's lock is released with the run queue lock still held |
| Scheduler.Machine.SetState | group_project/src/kern/thread/thread.c:635-655 | t_state catches up with the place |
| Scheduler.Machine.Pick | group_project/src/kern/thread/thread.c:656-674 | the first thread of the run queue becomes current, and is current nowhere else, and the rest stay in order; with none the cpu idles unlocked |
| Scheduler.Machine.Unidle | group_project/src/kern/thread/thread.c:658-662 | the idle cpu locks its queue and looks again |
| Scheduler.Machine.FinishSwitch | group_project/src/kern/thread/thread.c:726-731 | the tail of thread_switch and the beginning of thread_startup |
| Scheduler.Machine.Destroy | group_project/src/kern/thread/thread.c:299-303 | the thread destroyed is a zombie and current on no cpu |
| Scheduler.Machine.Exorcise | group_project/src/kern/thread/thread.c:293-304 | all zombies of the cpu and nothing else |
| Scheduler.Machine.TakeSleeper | group_project/src/kern/thread/thread.c:1053-1059 | a waker takes the first sleeper off the channel |
| Scheduler.Machine.MakeRunnable | group_project/src/kern/thread/thread.c:458-490 | it goes last on its own cpu's queue, ready, only when that queue's lock is free |
| Scheduler.Machine.Create | group_project/src/kern/thread/thread.c:502-549 | a forked thread, known to nobody else yet, on its parent's cpu |
| Scheduler.Machine.StartNewborn | group_project/src/kern/thread/thread.c:557-558 | and made runnable there |
| Scheduler.Machine.Evict | group_project/src/kern/thread/thread.c:903-908 | migration takes the last thread of its own queue |
| Scheduler.Machine.Emigrate | group_project/src/kern/thread/thread.c:915-960 | and gives it to another cpu, but never the current thread |
| Scheduler.Machine.Return | group_project/src/kern/thread/thread.c:968-974 | or back to its own queue |
| Scheduler.Machine.Take | group_project/src/kern/thread/thread.c:458-1103 | every step any cpu can take does what the transition function says, and keeps the invariant |
| Scheduler.Machine.Run | group_project/src/kern/thread/thread.c:458-1103 | in every interleaving, over any number of cpus, threads and wait channels, each state on the way satisfies the invariant, and the last is the one the steps lead to |
| Scheduler.NotHalfSwitched | group_project/src/kern/thread/thread.c:617-635 | a waker cannot queue a thread whose switch has not finished: the run queue lock it needs is held until then |
| Turns.OneStep | group_project/src/kern/thread/thread.c:458-974 | in any step a run queue loses its first thread, to the cpu, or its last one, to a migration, or gains threads at its end |
| Turns.MovesUp | group_project/src/kern/thread/thread.c:610-674 | over any run a ready thread that is not migrated moves up by one place with every switch of its cpu |
| Turns.InTurn | group_project/src/kern/thread/thread.c:664-674 | first come, first served: a thread at place k is the one switched to after exactly k other switches of its cpu |
| Turns.WokenInTurn | group_project/src/kern/thread/thread.c:1046-1060 | over any run a sleeper at place k of a wait channel is the one woken after exactly k others |
| Migration.RunQueues.ConsiderMigration | group_project/src/kern/thread/thread.c:875-978 | whatever other cpus do between the critical sections: no thread lost or doubled, t_cpu right, the current thread stays, no victim left; when they do nothing, the exact balance |
| Migration.RunQueues.CountThreads | group_project/src/kern/thread/thread.c:884-894 | counts taken one lock at a time; the own count never exceeds what the own queue still has, so nothing is popped off an empty list |
| Migration.RunQueues.EvictVictims | group_project/src/kern/thread/thread.c:902-908 | the last to_send threads, in their order |
| Migration.RunQueues.FillCpu | group_project/src/kern/thread/thread.c:915-960 | a cpu is filled up to the share and not past it; the current thread is skipped once |
| Migration.RunQueues.Place | group_project/src/kern/thread/thread.c:910-976 | everything sent fits, and the rest goes home |
| Migration.RunQueues.PutBack | group_project/src/kern/thread/thread.c:968-976 | what is left goes back to the own queue |
| Migration.Fits | group_project/src/kern/thread/thread.c:896-901 | with the share rounded up, the other cpus have room for everything above it |
| Synch.Semaphore.TryP | group_project/src/kern/thread/synch.c:85-116 | one turn of P: through with one unit less, or last among the sleepers exactly when the count is 0 |
| Synch.Semaphore.V | group_project/src/kern/thread/synch.c:118-128 | one unit more and the first sleeper woken; the assertion fails exactly when the count wraps |
| Synch.RunSemaphore | group_project/src/kern/thread/synch.c:85-128 | in every state of every interleaving units are conserved, and sleepers imply that the count is at most the woken threads yet to look; the last state is the one the steps lead to, or the panic |
| Synch.Monitor.MutualExclusion | group_project/src/kern/thread/synch.c:177-220 | at most one thread has the lock, and then it is not available |
| Synch.Monitor.TryAcquire | group_project/src/kern/thread/synch.c:182-200 | one turn of lock_acquire: the lock, or asleep on it |
| Synch.Monitor.Release | group_project/src/kern/thread/synch.c:203-220 | available, no holder, and the first sleeper woken |
| Synch.Monitor.WaitersAreThere | group_project/src/kern/thread/synch.c:275-307 | when anyone can signal or broadcast, every thread in cv_wait that gave up the lock is on the channel or already woken |
| Synch.Monitor.WaitBegin | group_project/src/kern/thread/synch.c:280 | cv_wait takes the cv's spinlock while it has the lock |
| Synch.Monitor.WaitRelease | group_project/src/kern/thread/synch.c:281 | it releases the lock with that spinlock held |
| Synch.Monitor.WaitSleep | group_project/src/kern/thread/synch.c:283 | it is on the channel when the spinlock is free |
| Synch.Monitor.WaitWake | group_project/src/kern/thread/synch.c:285-286 | woken, it goes for the lock |
| Synch.Monitor.Signal | group_project/src/kern/thread/synch.c:289-297 | exactly the first waiter is woken |
| Synch.Monitor.Broadcast | group_project/src/kern/thread/synch.c:299-307 | exactly the waiters are woken, all of them |
| Synch.RunMonitor | group_project/src/kern/thread/synch.c:177-307 | in every state of every interleaving: available exactly when no holder, one holder at most, and an available lock with sleepers has a woken thread yet to look; the last state is the one the steps lead to |
| SharedBuffer.Buffer.constructor | group_project/src/kern/shared_buffer/shared_buffer.c:6-49 | an empty buffer of any size, all locks free |
| SharedBuffer.Buffer.Enter | group_project/src/kern/shared_buffer/shared_buffer.c:60-63 | a call begins |
| SharedBuffer.Buffer.Lock | group_project/src/kern/shared_buffer/shared_buffer.c:63-67 | lock_acquire, in the call itself or at the end of cv_wait: with the lock the thread is at the test, in the call it made, and without it asleep |
| SharedBuffer.Buffer.Check | group_project/src/kern/shared_buffer/shared_buffer.c:65-71 | the test and the update: a producer appends its character, a consumer gets the oldest one, or the thread waits |
| SharedBuffer.Buffer.SignalOther | group_project/src/kern/shared_buffer/shared_buffer.c:73 | the signal passes the unit to a sleeper, so none is stranded |
| SharedBuffer.Buffer.Leave | group_project/src/kern/shared_buffer/shared_buffer.c:74 | lock_release at the end of the call |
| SharedBuffer.Buffer.WaitOn | group_project/src/kern/shared_buffer/shared_buffer.c:65-67 | the steps of cv_wait |
| SharedBuffer.Run | group_project/src/kern/shared_buffer/shared_buffer.c:60-95 | in every state of every interleaving of any producers and consumers, consumed plus ring is produced and no wakeup is lost; what was produced is the inputs of the producers' calls that made their update, in that order, and each consumer's call has taken one character; the last state is the one the steps lead to |
| SharedBuffer.FirstInFirstOut | group_project/src/kern/shared_buffer/shared_buffer.c:60-95 | consumed is a prefix of produced, the rest is in the ring, count is within the size, and in is out plus count modulo size; a buffer of size 0 produces nothing |
| SharedBuffer.OnlyGrows | group_project/src/kern/shared_buffer/shared_buffer.c:60-95 | no step takes back what was produced or consumed |
| SharedBuffer.RoleKept | group_project/src/kern/shared_buffer/shared_buffer.c:60-95 | a call keeps its role and its input from its beginning to its end, and ends only after its update |
| SharedBuffer.InputsGetThere | group_project/src/kern/shared_buffer/shared_buffer.c:60-95 | over any run every producer's update puts in the character its call was made with, every consumer's takes one out, and nothing else does either |
| SharedBuffer.NoStandstill | group_project/src/kern/shared_buffer/shared_buffer.c:60-95 | in a buffer with a slot, while a producer and a consumer are both asleep, some thread in the middle of a call has a step that gets it somewhere else |
| SharedBuffer.NoSlot | group_project/src/kern/shared_buffer/shared_buffer.c:60-95 | in a buffer of size 0 a producer and a consumer both go to sleep, and nobody can go on |
| SharedBuffer.PutChar | group_project/src/kern/shared_buffer/shared_buffer.c:69-71 | storing at in appends to the ring's contents |
| SharedBuffer.GetChar | group_project/src/kern/shared_buffer/shared_buffer.c:87-89 | the character at out is the oldest not consumed |
| Hangman.Detector.Check | group_project/src/kern/thread/hangman.c:50-67 | the pointer chase ends, and finds the target exactly when the waits-for path leads to it |
| Hangman.Detector.Report | group_project/src/kern/thread/hangman.c:85-92 | the walk that prints the cycle follows the path to the target and ends there |
| Hangman.Detector.DeadlockIsCycle | group_project/src/kern/thread/hangman.c:109-129 | the target is found exactly when the new wait would close a cycle |
| Hangman.Detector.Wait | group_project/src/kern/thread/hangman.c:109-129 | each panic under its exact condition; otherwise the graph, with the new wait, has no cycle |
| Hangman.Detector.Acquire | group_project/src/kern/thread/hangman.c:131-157 | each panic under its exact condition; otherwise the holder is the actor and the graph has no cycle |
| Hangman.Detector.Release | group_project/src/kern/thread/hangman.c:159-182 | each panic under its exact condition; otherwise nobody holds it and the graph has no cycle |
| Hangman.TakeWait | group_project/src/kern/thread/hangman.c:109-129 | hangman_wait panics with a deadlock exactly when the new wait would close a cycle in the waits-for graph; otherwise only this wait is new |
| Hangman.TakeAcquire | group_project/src/kern/thread/hangman.c:131-157 | the whole new state, or the panic |
| Hangman.TakeRelease | group_project/src/kern/thread/hangman.c:159-182 | likewise |
| Hangman.Run | group_project/src/kern/thread/hangman.c:109-182 | any sequence of operations: the last state is the one the operations lead to, or the panic, and in every state on the way the waits-for graph has no cycle |
| Hangman.NewEdge | group_project/src/kern/thread/hangman.c:125-126 | a first edge out of a node closes a cycle if and only if its end reached the node |
| Hangman.WalkEnds | group_project/src/kern/thread/hangman.c:57-66 | a walk in a graph without cycles is no longer than the number of nodes |
| Deadlocks.LockTable.Start | group_project/src/kern/thread/synch.c:177-185 | lock_acquire and spinlock_acquire up to the loop: the assertion, or the panic for a deadlock, each exactly when it has to be |
| Deadlocks.LockTable.Try | group_project/src/kern/thread/synch.c:187-200 | a turn of the loop: a free lock is taken, a sleep lock also noted; at another's the thread is last asleep, or spins on; hangman_acquire never panics here |
| Deadlocks.LockTable.Note | group_project/src/kern/thread/spinlock.c:117-121 | the hook after the test-and-set never panics |
| Deadlocks.LockTable.Release | group_project/src/kern/thread/synch.c:203-220 | the release, and the first sleeper woken; hangman_release never panics here |
| Deadlocks.LockTable.Free | group_project/src/kern/thread/spinlock.c:138-140 | the store that frees a spinlock |
| Deadlocks.StepKeeps | group_project/src/kern/thread/synch.c:177-220 | every step keeps the locks in order: who owns, waits, sleeps and is woken |
| Deadlocks.HooksTaken | group_project/src/kern/thread/synch.c:194-198 | where hangman_acquire is called the actor waits for the lock and nobody is noted as its holder |
| Deadlocks.HooksReleased | group_project/src/kern/thread/synch.c:210-217 | where hangman_release is called the actor waits for nothing and is noted as the holder |
| Deadlocks.DoomedIffCycle | group_project/src/kern/thread/hangman.c:42-49 | some actors wait for locks of each other if and only if the waits-for graph has a cycle |
| Deadlocks.DoomedForever | group_project/src/kern/thread/hangman.c:71-79 | they do so after any steps of anybody: none of this can change |
| Deadlocks.ReportedIffForever | group_project/src/kern/thread/hangman.c:71-129 | a call is reported as a deadlock if and only if with its wait some actors wait forever: no report is false, none is missing |
| Deadlocks.SomeoneCanGo | group_project/src/kern/thread/hangman.c:42-67 | while nothing is reported, the chain of owners from any actor ends at one that is in no call or has a step that gets it the lock or out of the call, or at a lock for which another one has such a step |
| Deadlocks.Run | group_project/src/kern/thread/synch.c:177-220 | any actors at any sleep locks and spinlocks in any interleaving: the last state is the one the steps lead to; no state on the way has a deadlock; the run ends early only in a failed assertion of a lock or in the panic for a deadlock, so the detector's other panics cannot happen |
| Sha256.MajAgrees | group_project/src/common/libtest161/sha256.c:169 | the macro with fewer operations is the standard's majority function |
| Sha256.ChAgrees | group_project/src/common/libtest161/sha256.c:170 | and the standard's choice function |
| Sha256.SigmasAgree | group_project/src/common/libtest161/sha256.c:160-167 | shift pairs are rotations: the four sigma functions of section 4.1.2 of FIPS 180-2 |
| Sha256.P | group_project/src/common/libtest161/sha256.c:178-183 | two elements change, and under the names shifted by one the array holds the next round's working variables |
| Sha256.R | group_project/src/common/libtest161/sha256.c:172-176 | the schedule is extended in place by the word of step 1 of section 6.2.2 |
| Sha256.ProcessRolled | group_project/src/common/libtest161/sha256.c:191-206 | the rolled loop computes the block function of section 6.2.2 |
| Sha256.EightRounds | group_project/src/common/libtest161/sha256.c:211-221 | eight permuted calls are eight rounds |
| Sha256.EightMoreRounds | group_project/src/common/libtest161/sha256.c:223-233 | with the schedule extended on the way |
| Sha256.Process | group_project/src/common/libtest161/sha256.c:185-238 | the unrolled form computes the same function for every block |
| Fips180.PadLength | group_project/src/common/libtest161/sha256.c:290-310 | a padded message is whole blocks, and below 2^61 bytes its length field is the exact length in bits |
| Fips180.ZeroCountIs | group_project/src/common/libtest161/sha256.c:306-307 | the number of zeros is the least that fits |
| Fips180.FoldAppend | group_project/src/common/libtest161/sha256.c:271-276 | hashing in pieces of whole blocks is hashing the whole |
| RoundConstants.CubeRoots | group_project/src/common/libtest161/sha256.c:140-158 | the i-th round constant is the first 32 bits of the fractional part of the cube root of the i-th prime |
| RoundConstants.SquareRoots | group_project/src/common/libtest161/sha256.c:111-135 | the initial values are the first 32 bits of the fractional parts of the square roots of the first eight primes, and for SHA-224 the second 32 bits for the next eight |
| WorkedExamples.AbcPadded | group_project/src/common/libtest161/sha256.c:299-310 | the padding and the words of the example of appendix B.1 of FIPS 180-2 |
| WorkedExamples.AbcTurns | group_project/src/common/libtest161/sha256.c:178-183 | the first two rows of its table of working variables |
| WorkedExamples.ScheduleGoesOn | group_project/src/common/libtest161/sha256.c:172-176 | the first computed word of the schedule in the example of appendix B.2 |
| WorkedExamples.AbcDigest | group_project/src/common/libtest161/sha256.c:235-236 | the end of the example, from the last row of its table to the digest: the addition of the initial hash, and the order of words and bytes |
| Sha256Stream.CounterStep | group_project/src/common/libtest161/sha256.c:256-260 | the two words stay the number of bytes modulo 2^64 |
| Sha256Stream.LengthField | group_project/src/common/libtest161/sha256.c:299-301 | shifted, they are the number of bits modulo 2^64 |
| Sha256Stream.PaddingIs | group_project/src/common/libtest161/sha256.c:306-309 | padn is between 1 and 64, and the bytes taken are those of section 5.1.1 |
| Sha256Stream.Context.Starts | group_project/src/common/libtest161/sha256.c:106-138 | an empty message with the initial hash, whatever the context held |
| Sha256Stream.Context.Update | group_project/src/common/libtest161/sha256.c:244-280 | the message grows by the input; the hash is that of its whole blocks and the buffer holds the rest |
| Sha256Stream.Context.TakePadding | group_project/src/common/libtest161/sha256.c:299-310 | what has been hashed is the padded message |
| Sha256Stream.Context.Finish | group_project/src/common/libtest161/sha256.c:293-322 | the digest of all bytes taken in; for SHA-224 the last word of the output stays |
| Sha256Stream.Hash | group_project/src/common/libtest161/sha256.c:329-339 | the digest of the input |
| Sha256Stream.HashPieces | group_project/src/common/libtest161/sha256.c:244-322 | every way of cutting a message into pieces gives the digest of the message |
| ThreadList.InsertAfterNode | group_project/src/kern/thread/threadlist.c:105-120 | the node is between the two it was put between, links mirrored |
| ThreadList.InsertBeforeNode | group_project/src/kern/thread/threadlist.c:125-140 | the same from the other side |
| ThreadList.RemoveNode | group_project/src/kern/thread/threadlist.c:145-157 | its neighbours are linked, and its own links null |
| ThreadList.List.constructor | group_project/src/kern/thread/threadlist.c:60-72 | two bookends and no thread |
| ThreadList.List.IsEmpty | group_project/src/kern/thread/threadlist.c:91-97 | the count says whether there is a thread |
| ThreadList.List.AddHead | group_project/src/kern/thread/threadlist.c:162-170 | the thread is first |
| ThreadList.List.AddTail | group_project/src/kern/thread/threadlist.c:172-180 | the thread is last |
| ThreadList.List.RemHead | group_project/src/kern/thread/threadlist.c:182-198 | the first thread, or NULL exactly for the empty list |
| ThreadList.List.RemTail | group_project/src/kern/thread/threadlist.c:200-216 | the last thread, or NULL exactly for the empty list |
| ThreadList.List.InsertAfter | group_project/src/kern/thread/threadlist.c:218-224 | right after the given thread |
| ThreadList.List.InsertBefore | group_project/src/kern/thread/threadlist.c:226-232 | right before it |
| ThreadList.List.Remove | group_project/src/kern/thread/threadlist.c:234-240 | that thread and no other |
| ThreadList.List.Forward | group_project/src/kern/include/threadlist.h:94-97 | the forward walk visits the threads in order |
| ThreadList.List.Backward | group_project/src/kern/include/threadlist.h:99-102 | the backward walk is its mirror image |
| ThreadList.RemHeadBeside | group_project/src/kern/thread/threadlist.c:182-198 | a list that shares no node with it is untouched |
| ThreadList.AddTailBeside | group_project/src/kern/thread/threadlist.c:172-180 | likewise |
| ThreadList.MoveAll | group_project/src/kern/thread/thread.c:1083-1091 | the private list of wchan_wakeall gets all sleepers in order |
| LinkedList.List.Prepend | group_project/src/kern/concurrent_list/linked_list.c:32-54 | the item is first; a sorted list stays sorted if and only if it was empty or its first key is above the least int |
| LinkedList.PrependSorted | group_project/src/kern/concurrent_list/linked_list.c:44 | the condition, for every sorted list |
| LinkedList.PrependWraps | group_project/src/kern/concurrent_list/linked_list.c:44 | the input that breaks the order: a first key equal to the least int |
| LinkedList.Search | group_project/src/kern/concurrent_list/linked_list.c:89-91 | the first node whose key is not less |
| LinkedList.List.InsertKey | group_project/src/kern/concurrent_list/linked_list.c:73-124 | the item is at its place, before its equals; a sorted list stays sorted |
| LinkedList.List.RemoveHead | group_project/src/kern/concurrent_list/linked_list.c:126-164 | the first item, which is a least one of a sorted list; first, last, the links and the length stay right, with the shortcut on the length |
| LinkedList.Run | group_project/src/kern/concurrent_list/linked_list.c:32-164 | any sequence of operations: the list does what the sequence of its items does, up to a prepend whose key wraps, and is sorted in every state on the way |
| LinkedList.Step | group_project/src/kern/concurrent_list/linked_list.c:32-164 | one operation does to the list what it does to the sequence of its items |
| LinkedList.Conserved | group_project/src/kern/concurrent_list/linked_list.c:32-164 | the items of the list are those that were there and were put in, less those taken out, with multiplicity |
| Spl.Machine.constructor | group_project/src/kern/thread/thread.c:145-148 | each boot thread at splhigh with one raise, interrupts off |
| Spl.Machine.Splx | group_project/src/kern/thread/spl.c:131-160 | the old level is returned, and the account is right for the new level whatever spinlocks are held |
| Spl.Machine.SplRaise | group_project/src/kern/thread/spl.c:86-104 | one raise more; the first one turns interrupts off, and off they stay |
| Spl.Machine.SplLower | group_project/src/kern/thread/spl.c:106-124 | one raise less, interrupts on when it was the last |
| Spl.Machine.StartAcquire | group_project/src/kern/thread/spinlock.c:80-91 | raise and count before spinning; the panic exactly when the cpu has the lock |
| Spl.Machine.TakeLock | group_project/src/kern/thread/spinlock.c:96-117 | the test-and-set on a free lock |
| Spl.Machine.ReleaseLock | group_project/src/kern/thread/spinlock.c:127-142 | the panic exactly when the cpu has not the lock; otherwise one raise less |
| Spl.Machine.Switch | group_project/src/kern/thread/thread.c:666-677 | the account survives a context switch |
| Spl.Machine.SwitchBegin | group_project/src/kern/thread/thread.c:583-601 | thread_switch by a thread with no spinlock, or only its channel's: at splhigh, waiting for the run queue lock, with its old level kept |
| Spl.Machine.SwitchAway | group_project/src/kern/thread/thread.c:601-677 | with that lock and without the channel's it meets what the switch demands, and leaves behind two raises at splhigh |
| Spl.Machine.SwitchEnd | group_project/src/kern/thread/thread.c:730-740 | switched to again, on any cpu, it gets back the level it came with, and interrupts as they were |
| Spl.OthersLeaveIt | group_project/src/kern/thread/thread.c:583-740 | in between, no step of another cpu changes the account of a thread that does not run, or of a cpu that waits |
| Spl.Machine.Fork | group_project/src/kern/thread/thread.c:542-547 | and thread start-up, because of the extra raise |
| Spl.Machine.InterruptsOff | group_project/src/kern/thread/spl.c:60-84 | interrupts are off exactly when the thread is at splhigh or its cpu holds or waits for a spinlock, and the raises are the sum of both |
| Spl.RedAndBlue | group_project/src/kern/thread/spl.c:68-77 | the example of locks and levels that do not nest ends where it began |
| Spl.Run | group_project/src/kern/thread/spl.c:86-160 | in every state of every order of these, on any number of cpus, the accounts are right; the last state is the one the steps lead to, or the panic |
| Spl.Take | group_project/src/kern/thread/spl.c:86-160 | one step does what the transition function says, or panics exactly when it does |

## Left out

- KHeap.Heap.SubpageFree: after a double free that was not noticed the heap does not satisfy its invariant, and what later calls do to it is not modelled, beyond the runs in `HeapFaults`.
- KMalloc.System.StartLarge: the call of `alloc_kpages` is one step, since the allocator holds no lock and no state across it; a wrapped request's address is with no caller afterwards, and its `kfree` is in `HeapFaults.WrappedRequest` only.
- KMalloc.System.StartFree: callers free what they have; in `System` nobody frees a block twice or a pointer `kmalloc` did not return.
- KMalloc.System.Run: says nothing after the panic of `freepageref`.
- HeapStats.SubpageStats: does not model the printing, nor that the map is packed into 32-bit words.
- QDivRem.QDivRem: always computes the remainder; that a null pointer skips the un-normalising loop is not modelled.
- Scheduler.Machine.Run: the current thread of a cpu is any thread that does not hold the run queue lock; what it computes, its stack guard, interrupts to other cpus and the saving of registers are not modelled.
- Migration.RunQueues.ConsiderMigration: counts are unbounded, so that the sum of the queue lengths does not wrap.
- Migration.RunQueues.Window: other cpus take from any queue but this one and put threads on any queue; what decides which is not modelled.
- Synch.RunSemaphore: says nothing after the panic of `V` on a count that wraps.
- SharedBuffer.NoStandstill: is about a buffer with a slot, and the system as a whole; that a given thread eventually runs depends on the scheduler's fairness and is not stated.
- Hangman.Run: the detector's own spinlock makes each operation one step.
- Deadlocks.Run: the spinlock inside a sleep lock makes each turn at it one step. A thread and its cpu are two actors, as in the source, so a deadlock that goes through both is none the detector, or this model of it, knows of. The time before the first cpu structure exists, when the hooks are skipped, is not modelled.
- WorkedExamples.AbcDigest: starts from the last row of the example's table; the rows between the second and the last are not computed.
- Turns.InTurn: is about a thread that migration leaves where it is; that its cpu switches often enough depends on what threads do.
- Sha256Stream.Context.Update: an input longer than 2^32 - 1 bytes does not exist on the 32-bit machine.
- LinkedList.List.Prepend: failure to allocate a node, and a length beyond the largest int, are not modelled.
- LinkedList.Run: each operation is one step because it holds the list's lock throughout; the yields inside it are not modelled.
- Spl.Machine.constructor: the time before the first cpu structure exists, when the spl calls do nothing, is not modelled.
- Spl.Run: traps, which set interrupt state behind the accounts and restore it, are not modelled.
- Hashes of messages that are not whole bytes.
- The debugging modes of the heap (guard bands, labels, checks), which this configuration turns off.
- Creation and destruction of semaphores, locks, condition variables and wait channels.
- The shift, bitwise and comparison routines of the compiler support library.
- Process structures, system calls, file tables, virtual memory, devices and file systems.
