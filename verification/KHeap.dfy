/** The subpage allocator of kmalloc.c. kmalloc_spinlock makes each stretch of code between two
    points where it is free one atomic step; every method of Heap is one such step, and what a
    thread remembers across a window is in its arguments. */
module KHeap {
  import opened Sequences
  import opened Freelist
  import opened PageRefs
  import opened HeapInvariant
  import opened HeapWrites

  /** How a step of an allocation ends. In the three middle cases the lock is dropped and the
      allocation goes on in a later step. */
  datatype Allocation =
    | Block(ptr: nat)
    | NeedPage
    | NeedRootPage(pr: nat)
    | SurplusRootPage(pr: nat)
    | NoPageRef

  /** How subpage_kfree ends; PageFreed still has to give the page back. */
  datatype Freeing = NotOurs | Freed | PageFreed(page: nat) | Panic

  /** The smallest block type that holds sz bytes. */
  predicate FitsBest(sz: nat, b: blocktype) {
    && sz <= SizeOf(b)
    && forall c: blocktype :: c < b ==> SizeOf(c) < sz
  }

  /** Of the block that serves a request of more than 16 bytes less than half is wasted. */
  lemma LittleWaste(sz: nat, b: blocktype)
    requires FitsBest(sz, b)
    ensures sz <= SizeOf(b) && (sz > 16 ==> SizeOf(b) < 2 * sz)
  {
    if b > 0 {
      assert SizeOf(b - 1) < sz;
      SizesArePowers(b);
      SizesArePowers(b - 1);
      assert SizeOf(b) == 2 * SizeOf(b - 1);
    }
  }

  /** blocktype(); it panics exactly when no block type is large enough. */
  method BlockTypeFor(sz: nat) returns (ok: bool, b: blocktype)
    ensures ok <==> sz <= 2048
    ensures ok ==> FitsBest(sz, b)
  {
    b := 0;
    while SizeOf(b) < sz
      invariant forall c: blocktype :: c < b ==> SizeOf(c) < sz
      decreases NSIZES - b
    {
      if b + 1 == NSIZES {
        return false, b;
      }
      b := b + 1;
    }
    ok := true;
  }

  class Heap {
    var refs: seq<PageRef>
    var inuse: seq<seq<bool>>
    var numinuse: seq<nat>
    var rootPage: seq<nat>
    var sizebases: seq<int>
    var allbase: int
    /** The words in which free blocks keep their next pointers. */
    var mem: map<nat, nat>

    /** The lists as sequences, the freelist of each listed page, and the blocks handed out. */
    ghost var all: seq<nat>
    ghost var same: seq<seq<nat>>
    ghost var chain: map<nat, seq<nat>>
    ghost var live: set<nat>
    /** What threads that are in a window hold: descriptors with their bit set, and pages. */
    ghost var claimed: set<nat>
    ghost var held: set<nat>

    /** The static variables as the kernel starts: no page, no descriptor, nothing handed out. */
    constructor ()
      ensures Valid() && fresh(this)
      ensures all == [] && live == claimed == held == {} && Listed() == {}
      ensures rootPage == seq(NROOTS, i => 0) && numinuse == seq(NROOTS, i => 0)
    {
      refs := seq(TOTAL, i => PageRef(NIL, NIL, 0, 0, 0));
      inuse := seq(NROOTS, i => seq(PER_PAGE, j => false));
      numinuse, rootPage := seq(NROOTS, i => 0), seq(NROOTS, i => 0);
      sizebases, allbase, mem := seq(NSIZES, i => NIL), NIL, map[];
      all, same, chain, live, claimed, held := [], seq(NSIZES, i => []), map[], {}, {}, {};
      new;
      NoneSet(seq(PER_PAGE, j => false));
    }

    ghost predicate Core() reads this {
      && ListsOk(refs, allbase, sizebases, all, same)
      && PagesOk(refs, mem, all, chain, live)
      && BitsOk(inuse, numinuse, rootPage, all, claimed)
      && HeldOk(refs, all, held) && RootsOk(refs, rootPage, all, held)
    }

    /** What holds whenever the spinlock is free: also, no wholly free page stays listed. */
    ghost predicate Valid() reads this {
      Core() && NoneWhollyFree(refs, all)
    }

    /** The pages the heap has on its lists. */
    ghost function Listed(): set<nat> reads this`refs, this`all {
      ListedPages(refs, all)
    }

    lemma UnfoldListed()
      ensures Listed() == ListedPages(refs, all)
    {
    }

    // ----- allocation

    /** The `doalloc' code: the first free block of the page leaves its freelist. */
    method TakeBlock(p: nat) returns (ptr: nat)
      requires Core() && p in all && refs[p].nfree > 0
      requires forall q :: q in all && q != p ==> q < |refs| && NotWhollyFree(refs[q])
      modifies this`refs, this`chain, this`live
      ensures Valid()
      ensures old(chain[p]) != [] && ptr == old(chain[p][0]) && ptr !in old(live) && ptr in BlocksOf(refs[p])
      ensures live == old(live) + {ptr} && chain == old(chain[p := chain[p][1..]])
      ensures refs == old(refs)[p := old(refs[p]).(nfree := old(refs[p]).nfree - 1, offset := refs[p].offset)]
    {
      hide ListsOk, PagesOk, BitsOk, HeldOk, RootsOk, PageOk, PageAddr, BlockType, BlocksOf, Load, NoneWhollyFree,
           NotWhollyFree;
      InPool(refs, mem, all, chain, live, p);
      ghost var pr0, refs0, live0, chain0 := refs[p], refs, live, chain;
      var page := PageAddr(refs[p]);
      ptr := page + refs[p].offset;
      var fl := Load(mem, ptr);
      ghost var pr1 := refs[p].(nfree := refs[p].nfree - 1, offset := if fl >= page then fl - page else INVALID_OFFSET);
      TakeFromOne(refs[p], pr1, mem, chain[p], live, ptr, fl);
      assert refs[p].offset < PAGE_SIZE;
      var nfree := refs[p].nfree - 1;
      var offset;
      if fl != 0 {
        assert nfree > 0 && fl - page < PAGE_SIZE;
        offset := fl - page;
      } else {
        assert nfree == 0;
        offset := INVALID_OFFSET;
      }
      refs := refs[p := refs[p].(nfree := nfree, offset := offset)];
      live := live + {ptr};
      chain := chain[p := chain[p][1..]];
      assert refs[p] == pr1;
      ChangeOnePage(refs0, pr1, mem, mem, all, chain0, chain[p], live0, live, p);
      ListsFrame(refs0, refs, allbase, sizebases, all, same);
      HeldFrame(refs0, refs, all, held);
      RootsFrame(refs0, refs, rootPage, all, held);
      OneNotFull(pr0, nfree, offset);
      FoldBounds(refs, all, p);
    }

    /** The search loop: the first page on the list of block type b that has a free block. */
    method FindFree(b: blocktype) returns (pr: int)
      requires ListsOk(refs, allbase, sizebases, all, same)
      ensures pr == NIL <==> TypeFull(refs, all, b)
      ensures pr != NIL ==> 0 <= pr < |refs| && pr in all && BlockType(refs[pr]) == b && refs[pr].nfree > 0
    {
      UnfoldLists(refs, allbase, sizebases, all, same);
      hide ListsOk, BlockType;
      pr := sizebases[b];
      ghost var i := 0;
      while pr != NIL && refs[pr].nfree == 0
        invariant 0 <= i <= |same[b]| && pr == Link(same[b], i)
        invariant forall j :: 0 <= j < i ==> refs[same[b][j]].nfree == 0
        decreases |same[b]| - i
      {
        assert same[b][i] in same[b];
        pr, i := refs[pr].nextSame, i + 1;
      }
      if pr == NIL {
        forall q | q in all && BlockType(refs[q]) == b
          ensures refs[q].nfree == 0
        {
          assert q in same[b];
        }
      } else {
        assert same[b][i] in same[b];
      }
    }

    /** The first step of subpage_kmalloc: take a block from a page of the right size, or drop the
        lock to get a new page when none has one. */
    method SubpageAllocate(b: blocktype) returns (r: Allocation, ghost p: nat)
      requires Valid()
      modifies this`refs, this`chain, this`live
      ensures Valid()
      ensures r.Block? || r == NeedPage
      ensures r == NeedPage <==> TypeFull(old(refs), all, b)
      ensures Listed() == old(Listed())
      ensures r == NeedPage ==> refs == old(refs) && chain == old(chain) && live == old(live)
      ensures r.Block? ==> p in all && Allocated(r.ptr, b) && Took(p, old(refs), old(chain), old(live), r.ptr)
    {
      hide ListsOk, PagesOk, BitsOk, HeldOk, RootsOk, PageOk, PageAddr, BlockType, BlocksOf, Load, NotWhollyFree,
           TypeFull, LinkedAll, LinkedSame, Distinct, OnOwnList, SizeLists;
      UnfoldLists(refs, allbase, sizebases, all, same);
      var pr := FindFree(b);
      if pr == NIL {
        return NeedPage, 0;
      }
      p := pr;
      InPool(refs, mem, all, chain, live, p);
      var ptr := TakeBlock(pr);
      SamePlace(old(refs[pr]), refs[pr]);
      ListedFrame(old(refs), refs, all);
      FoldAllocated(p, ptr, b);
      return Block(ptr), p;
    }

    /** ptr is a block of type b of a listed page, and handed out. */
    ghost predicate Allocated(ptr: nat, b: blocktype) reads this {
      && ptr in live
      && exists p :: p in all && p < |refs| && BlockType(refs[p]) == b && ptr in BlocksOf(refs[p])
    }

    /** The step took the first free block of page p, and changed nothing else. */
    ghost predicate Took(p: nat, refs0: seq<PageRef>, chain0: map<nat, seq<nat>>, live0: set<nat>, ptr: nat)
      reads this
    {
      && p in chain0 && chain0[p] != [] && ptr == chain0[p][0] && ptr !in live0
      && live == live0 + {ptr} && chain == chain0[p := chain0[p][1..]]
      && p < |refs0| && refs0[p].nfree > 0 && p < |refs|
      && refs == refs0[p := refs0[p].(nfree := refs0[p].nfree - 1, offset := refs[p].offset)]
    }

    lemma UnfoldCore()
      requires Valid()
      ensures ListsOk(refs, allbase, sizebases, all, same) && PagesOk(refs, mem, all, chain, live)
      ensures BitsOk(inuse, numinuse, rootPage, all, claimed) && HeldOk(refs, all, held) && NoneWhollyFree(refs, all)
      ensures RootsOk(refs, rootPage, all, held)
      ensures |refs| == TOTAL == 4096 && |rootPage| == NROOTS && |sizebases| == |same| == 8
    {
    }

    lemma FoldCore()
      requires ListsOk(refs, allbase, sizebases, all, same) && PagesOk(refs, mem, all, chain, live)
      requires BitsOk(inuse, numinuse, rootPage, all, claimed) && HeldOk(refs, all, held)
               && RootsOk(refs, rootPage, all, held)
      ensures Core()
    {
    }

    lemma FoldAllocated(p: nat, ptr: nat, b: blocktype)
      requires p in all && p < |refs| && BlockType(refs[p]) == b && ptr in BlocksOf(refs[p]) && ptr in live
      ensures Allocated(ptr, b)
    {
    }

    /** allocpageref up to the point where it may need a page: the first clear bit of the first
        root that is not full is set. */
    method ClaimPageRef() returns (pr: int)
      requires Core()
      modifies this`inuse, this`numinuse, this`claimed
      ensures Core()
      ensures pr == NIL <==> RootsFull(old(numinuse))
      ensures pr == NIL ==> inuse == old(inuse) && numinuse == old(numinuse) && claimed == old(claimed)
      ensures pr != NIL ==> 0 <= pr < TOTAL && claimed == old(claimed) + {pr} && pr !in old(claimed) && pr !in all
      ensures pr != NIL ==> FirstRoot(old(numinuse), numinuse, pr / PER_PAGE)
    {
      hide ListsOk, PagesOk, HeldOk, CountTrue;
      var r := 0;
      while r < NROOTS
        invariant 0 <= r <= NROOTS
        invariant inuse == old(inuse) && numinuse == old(numinuse) && claimed == old(claimed)
        invariant |numinuse| == NROOTS && forall i :: 0 <= i < r ==> numinuse[i] == PER_PAGE
      {
        CountBound(inuse[r]);
        if numinuse[r] < PER_PAGE {
          var i := 0;
          while i < 8
            invariant 0 <= i <= 8 && forall k :: 0 <= k < 32 * i ==> inuse[r][k]
            invariant inuse == old(inuse) && numinuse == old(numinuse) && claimed == old(claimed)
          {
            var j := 0;
            while j < 32
              invariant 0 <= j <= 32 && forall k :: 0 <= k < 32 * i + j ==> inuse[r][k]
              invariant inuse == old(inuse) && numinuse == old(numinuse) && claimed == old(claimed)
            {
              if !inuse[r][32 * i + j] {
                SetBit(inuse, numinuse, rootPage, all, claimed, r, 32 * i + j);
                inuse := inuse[r := inuse[r][32 * i + j := true]];
                numinuse := numinuse[r := numinuse[r] + 1];
                pr := r * PER_PAGE + (32 * i + j);
                claimed := claimed + {pr};
                return;
              }
              j := j + 1;
            }
            i := i + 1;
          }
          assert false;
        }
        r := r + 1;
      }
      pr := NIL;
    }

    /** The loop that strings the blocks of a new page together, each pointing at the one before. */
    method CutPage(page: nat, b: blocktype)
      requires page > 0
      modifies this`mem
      ensures IsChain(mem, FreshChain(page, b, CountOf(b)))
      ensures forall a :: a !in AllBlocks(page, b) ==> Load(mem, a) == Load(old(mem), a)
    {
      hide IsChain, BlockAt, Load;
      var i := 0;
      EmptyChain(mem);
      while i < CountOf(b)
        invariant 0 <= i <= CountOf(b) && IsChain(mem, FreshChain(page, b, i))
        invariant forall a :: a !in Blocks(page, b, i) ==> Load(mem, a) == Load(old(mem), a)
      {
        FreshStep(mem, page, b, i);
        BlocksGrow(page, b, i);
        mem := mem[BlockAt(page, b, i) := if i == 0 then 0 else BlockAt(page, b, i - 1)];
        i := i + 1;
      }
    }

    /** The new page is cut into blocks, and put in front of both lists. */
    method ListPage(p: nat, b: blocktype, page: nat)
      requires Valid() && p in claimed && rootPage[p / PER_PAGE] != 0 && page in held
      modifies this`refs, this`mem, this`sizebases, this`allbase
      modifies this`all, this`same, this`chain, this`claimed, this`held
      ensures Core() && p !in old(all)
      ensures all == [p] + old(all) && claimed == old(claimed) - {p} && held == old(held) - {page}
      ensures p < |refs| && PageAddr(refs[p]) == page && BlockType(refs[p]) == b && refs[p].nfree == CountOf(b) > 0
      ensures forall q :: q in all && q != p ==> q < |refs| && NotWhollyFree(refs[q])
      ensures Listed() == old(Listed()) + {page}
      ensures WroteOnly(old(mem), mem, page, PAGE_SIZE)
    {
      hide *;
      UnfoldListed();
      UnfoldCore();
      UnfoldLists(refs, allbase, sizebases, all, same);
      LastBlock(b);
      ghost var refs0, mem0, all0 := refs, mem, all;
      UseClaim(inuse, numinuse, rootPage, all, claimed, p);
      var n := CountOf(b);
      var pr := PageRef(sizebases[b], allbase, MkPab(page, b), (n - 1) * SizeOf(b), n);
      HeldPage(refs, all, held, page);
      PackedWord(page, b, pr);
      UseHeld(refs, pr, all, held, p, page);
      RootsUseHeld(refs, pr, rootPage, all, held, p, page);
      CutPage(page, b);
      FreshPage(refs, mem0, all, chain, live, pr);
      FreshPageOk(pr, mem, live, page, b);
      TheBlocks(pr, page, b);
      OnlyTheBlocks(pr, mem0, mem);
      OnlyThatPage(pr, mem0, mem);
      JoinPage(refs, pr, mem0, mem, all, chain, FreshChain(page, b, n), live, p);
      JoinLists(refs, allbase, sizebases, all, same, p, pr, b);
      refs, sizebases, allbase := refs[p := pr], sizebases[b := p], p;
      all, same, chain := [p] + all, same[b := [p] + same[b]], chain[p := FreshChain(page, b, n)];
      claimed, held := claimed - {p}, held - {page};
      OthersBounded(refs0, refs, all0, p);
      ListedPush(refs0, all0, p, pr);
      UnfoldListed();
      FoldCore();
    }

    /** The rest of subpage_kmalloc once it has a page and a descriptor: the page is listed, and its
        first block taken. */
    method UsePage(p: nat, b: blocktype, page: nat) returns (ptr: nat)
      requires Valid() && p in claimed && rootPage[p / PER_PAGE] != 0 && page in held
      modifies this`refs, this`mem, this`sizebases, this`allbase
      modifies this`all, this`same, this`chain, this`live, this`claimed, this`held
      ensures Valid()
      ensures all == [p] + old(all) && claimed == old(claimed) - {p} && held == old(held) - {page}
      ensures Allocated(ptr, b) && ptr !in old(live) && live == old(live) + {ptr}
      ensures page <= ptr < page + PAGE_SIZE && Listed() == old(Listed()) + {page}
      ensures JustListed(p, b, page)
      ensures WroteOnly(old(mem), mem, page, PAGE_SIZE)
    {
      hide *;
      ListPage(p, b, page);
      ghost var refs0 := refs;
      UnfoldListed();
      ptr := TakeBlock(p);
      SamePlace(refs0[p], refs[p]);
      ListedFrame(refs0, refs, all);
      UnfoldListed();
      FoldAllocated(p, ptr, b);
      FoldJustListed(p, b, page);
      BlockRange(refs[p], ptr);
    }

    /** The new page is listed, with one block taken. */
    ghost predicate JustListed(p: nat, b: blocktype, page: nat) reads this {
      p in all && p < |refs| && PageAddr(refs[p]) == page && BlockType(refs[p]) == b && refs[p].nfree == CountOf(b) - 1
    }

    lemma FoldJustListed(p: nat, b: blocktype, page: nat)
      requires p in all && p < |refs| && PageAddr(refs[p]) == page && BlockType(refs[p]) == b
               && refs[p].nfree == CountOf(b) - 1
      ensures JustListed(p, b, page)
    {
    }

    // ----- the windows

    /** A new page in hand and the lock held again: allocpageref, and if that needs no page of
        descriptors, the rest of the allocation. */
    method AddPage(b: blocktype, page: nat) returns (r: Allocation)
      requires Valid() && page in held
      modifies this`refs, this`inuse, this`numinuse, this`mem, this`sizebases, this`allbase
      modifies this`all, this`same, this`chain, this`live, this`claimed, this`held
      ensures Valid()
      ensures r.Block? || r.NeedRootPage? || r.NoPageRef?
      ensures r.NoPageRef? <==> RootsFull(old(numinuse))
      ensures r.NoPageRef? ==> live == old(live) && all == old(all) && claimed == old(claimed) && held == old(held)
      ensures r.NoPageRef? ==> numinuse == old(numinuse)
      ensures Listed() == if r.Block? then old(Listed()) + {page} else old(Listed())
      ensures r.NeedRootPage? ==> live == old(live) && all == old(all) && held == old(held)
      ensures r.NeedRootPage? ==> r.pr < TOTAL && rootPage[r.pr / PER_PAGE] == 0
      ensures r.NeedRootPage? ==> r.pr !in old(claimed) && claimed == old(claimed) + {r.pr}
      ensures r.NeedRootPage? ==> FirstRoot(old(numinuse), numinuse, r.pr / PER_PAGE)
      ensures r.Block? ==> Obtained(r.ptr, b, page, old(live)) && claimed == old(claimed) && held == old(held) - {page}
      ensures r.Block? ==> RootHadPage(old(numinuse), numinuse, rootPage)
      ensures if r.Block? then WroteOnly(old(mem), mem, page, PAGE_SIZE) else mem == old(mem)
    {
      hide *;
      UnfoldCore();
      FoldValid();
      ghost var claimed0 := claimed;
      var pr := ClaimPageRef();
      FoldValid();
      if pr == NIL {
        return NoPageRef;
      }
      UnfoldCore();
      ClaimInPool(inuse, numinuse, rootPage, all, claimed, pr);
      if rootPage[pr / PER_PAGE] == 0 {
        return NeedRootPage(pr);
      }
      var ptr := UsePage(pr, b, page);
      assert claimed0 + {pr as nat} - {pr} == claimed0;
      FoldHadPage(old(numinuse), numinuse, rootPage, pr / PER_PAGE);
      FoldObtained(ptr, b, page, old(live));
      return Block(ptr);
    }

    /** The lock held again after alloc_kpages was asked for a page of descriptors and gave va (0: none). */
    method RootPageArrived(p: nat, b: blocktype, page: nat, va: nat) returns (r: Allocation)
      requires Valid() && p in claimed && page in held && (va == 0 || (va in held && va != page))
      modifies this`refs, this`mem, this`sizebases, this`allbase, this`rootPage
      modifies this`all, this`same, this`chain, this`live, this`claimed, this`held
      ensures Valid()
      ensures r.Block? || r.NoPageRef? || r == SurplusRootPage(p)
      ensures r.NoPageRef? <==> va == 0 && old(rootPage[p / PER_PAGE]) == 0
      ensures r.SurplusRootPage? <==> va != 0 && old(rootPage[p / PER_PAGE]) != 0
      ensures r.NoPageRef? ==> claimed == old(claimed) - {p} && held == old(held)
      ensures r.SurplusRootPage? ==> claimed == old(claimed) && held == old(held) - {va} && rootPage[p / PER_PAGE] != 0
      ensures !r.Block? ==> live == old(live) && all == old(all)
      ensures Listed() == if r.Block? then old(Listed()) + {page} else old(Listed())
      ensures |rootPage| == |old(rootPage)| == NROOTS
      ensures r.NoPageRef? || r.SurplusRootPage? ==> rootPage == old(rootPage)
      ensures r.Block? ==> JustListed(p, b, page) && all == [p] + old(all)
      ensures r.Block? ==> p < TOTAL && rootPage == if va == 0 then old(rootPage) else old(rootPage)[p / PER_PAGE := va]
      ensures r.Block? ==> Obtained(r.ptr, b, page, old(live)) && claimed == old(claimed) - {p}
                           && held == old(held) - {page} - {va}
      ensures if r.Block? then WroteOnly(old(mem), mem, page, PAGE_SIZE) else mem == old(mem)
    {
      hide *;
      UnfoldCore();
      ClaimInPool(inuse, numinuse, rootPage, all, claimed, p);
      if va == 0 {
        if rootPage[p / PER_PAGE] == 0 {
          Unclaim(inuse, numinuse, rootPage, all, claimed, p);
          claimed := claimed - {p};
          FoldCore();
          FoldValid();
          return NoPageRef;
        }
      } else if rootPage[p / PER_PAGE] != 0 {
        Unhold(refs, rootPage, all, held, va);
        held := held - {va};
        FoldCore();
        FoldValid();
        return SurplusRootPage(p);
      } else {
        RootsInstall(refs, inuse, numinuse, rootPage, all, claimed, held, p / PER_PAGE, va);
        rootPage, held := rootPage[p / PER_PAGE := va], held - {va};
        FoldCore();
        FoldValid();
      }
      var ptr := UsePage(p, b, page);
      FoldObtained(ptr, b, page, old(live));
      return Block(ptr);
    }

    /** The lock held again after a surplus page of descriptors was given back. */
    method SurplusGone(p: nat, b: blocktype, page: nat) returns (ptr: nat)
      requires Valid() && p in claimed && page in held && p < TOTAL && |rootPage| == NROOTS
               && rootPage[p / PER_PAGE] != 0
      modifies this`refs, this`mem, this`sizebases, this`allbase
      modifies this`all, this`same, this`chain, this`live, this`claimed, this`held
      ensures Valid() && Obtained(ptr, b, page, old(live)) && claimed == old(claimed) - {p}
              && held == old(held) - {page}
      ensures Listed() == old(Listed()) + {page}
      ensures WroteOnly(old(mem), mem, page, PAGE_SIZE)
    {
      hide *;
      ptr := UsePage(p, b, page);
      FoldObtained(ptr, b, page, old(live));
    }

    /** alloc_kpages gives a thread a page nobody has. */
    method TakeKPage(va: nat)
      requires Valid() && 0 < va && va % PAGE_SIZE == 0 && va + PAGE_SIZE <= 0x1_0000_0000
      requires va !in rootPage && va !in Listed() && va !in held
      modifies this`held
      ensures Valid() && held == old(held) + {va}
    {
      hide PagesOk, ListsOk, BitsOk, PageAddr;
      held := held + {va};
    }

    /** A thread gives a page it holds back by free_kpages. */
    method GiveKPage(va: nat)
      requires Valid() && va in held
      modifies this`held
      ensures Valid() && held == old(held) - {va}
    {
      held := held - {va};
    }

    /** ptr is a block of the new page, and the only block newly handed out. */
    ghost predicate Obtained(ptr: nat, b: blocktype, page: nat, live0: set<nat>) reads this {
      Allocated(ptr, b) && ptr !in live0 && live == live0 + {ptr} && page <= ptr < page + PAGE_SIZE
    }

    lemma FoldObtained(ptr: nat, b: blocktype, page: nat, live0: set<nat>)
      requires Allocated(ptr, b) && ptr !in live0 && live == live0 + {ptr} && page <= ptr < page + PAGE_SIZE
      ensures Obtained(ptr, b, page, live0)
    {
    }

    lemma FoldValid()
      requires Core() && NoneWhollyFree(refs, all)
      ensures Valid()
    {
    }

    // ----- freeing

    method FillDeadbeef(ptr: nat, len: nat)
      requires len % 4 == 0
      modifies this`mem
      ensures forall a: nat :: !(ptr <= a < ptr + len) ==> Load(mem, a) == Load(old(mem), a)
      ensures forall i: nat :: i < len / 4 ==> Load(mem, ptr + 4 * i) == 0xdeadbeef
    {
      var i := 0;
      while i < len / 4
        invariant 0 <= i <= len / 4
        invariant forall a: nat :: !(ptr <= a < ptr + 4 * i) ==> Load(mem, a) == Load(old(mem), a)
        invariant forall k: nat :: k < i ==> Load(mem, ptr + 4 * k) == 0xdeadbeef
      {
        mem := mem[ptr + 4 * i := 0xdeadbeef];
        i := i + 1;
      }
    }

    /** The loop over allbase: the listed page the address lies in. */
    method FindPage(ptr: nat) returns (pr: int)
      requires ListsOk(refs, allbase, sizebases, all, same)
      ensures pr == NIL <==> forall q :: q in all && q < |refs| ==> !InPage(refs[q], ptr)
      ensures pr != NIL ==> pr >= 0 && pr in all && pr < |refs| && InPage(refs[pr], ptr)
    {
      UnfoldLists(refs, allbase, sizebases, all, same);
      hide ListsOk, BlockType, PageAddr;
      pr := allbase;
      ghost var i := 0;
      while pr != NIL && !(PageAddr(refs[pr]) <= ptr < PageAddr(refs[pr]) + PAGE_SIZE)
        invariant 0 <= i <= |all| && pr == Link(all, i)
        invariant forall j :: 0 <= j < i ==> !InPage(refs[all[j]], ptr)
        decreases |all| - i
      {
        pr, i := refs[pr].nextAll, i + 1;
      }
    }

    /** From fill_deadbeef to nfree++: the block goes in front of its page's freelist, unless it is there
        already. Only the first place is looked at: a block that is free anywhere else is put in front all
        the same, and then the page has no freelist any more. */
    method PutBlock(p: nat, ptr: nat) returns (ok: bool)
      requires Valid() && p in all && p < |refs| && ptr in BlocksOf(refs[p]) && p in chain
      modifies this`refs, this`mem, this`chain, this`live
      ensures ok <==> !IsFirst(ptr, old(chain[p]))
      ensures ok ==> Pushed(p, old(refs), ptr) && ListsAndBits()
      ensures ok && ptr !in old(chain[p]) ==> Core() && Put(p, old(refs), old(chain), old(live), ptr)
      ensures ok && ptr in old(chain[p]) ==> Broken(p) && chain == old(chain) && live == old(live)
      ensures ok ==> forall q :: q in all && q != p ==> q < |refs| && NotWhollyFree(refs[q])
      ensures ok ==> BlockType(refs[p]) < NSIZES && refs[p].nfree <= CountOf(BlockType(refs[p]))
      ensures ok ==> BlockType(old(refs)[p]) < NSIZES && WroteOnly(old(mem), mem, ptr, SizeOf(BlockType(old(refs)[p])))
    {
      hide *;
      UnfoldCore();
      UnfoldBounds(refs, all);
      InPool(refs, mem, all, chain, live, p);
      ghost var refs0, mem0, chain0, live0 := refs, mem, chain, live;
      var prpage, size := PageAddr(refs[p]), SizeOf(BlockType(refs[p]));
      BlockRange(refs[p], ptr);
      SizeWords(BlockType(refs[p]));
      FillDeadbeef(ptr, size);
      ghost var mem1 := mem;
      HeadOffset(refs[p], mem0, chain[p], live);
      Firsts(ptr, chain[p]);
      if refs[p].offset == INVALID_OFFSET {
        mem := mem[ptr := 0];
      } else {
        mem := mem[ptr := prpage + refs[p].offset];
        if ptr == prpage + refs[p].offset {
          return false;
        }
      }
      refs := refs[p := refs[p].(offset := ptr - prpage, nfree := refs[p].nfree + 1)];
      ok := true;
      Stored(mem1, mem, ptr, if refs0[p].offset == INVALID_OFFSET then 0 else prpage + refs0[p].offset);
      OnlyThisBlock(refs0[p], mem0, mem1, mem, chain0[p], live0, ptr, size);
      OnlyThere(mem0, mem1, mem, ptr, size);
      SamePlace(refs0[p], refs[p]);
      OneMoreFree(refs0[p], refs[p]);
      ListsFrame(refs0, refs, allbase, sizebases, all, same);
      if ptr in chain[p] {
        NoListLeft(refs0[p], refs[p], mem0, mem, chain0[p], live0, ptr);
        FoldBroken(p);
      } else {
        chain, live := chain[p := [ptr] + chain[p]], live - {ptr};
        PutBackOne(refs0[p], refs[p], mem0, mem, chain0[p], live0, ptr);
        SamePageRange(refs0[p], refs[p], mem0, mem);
        ChangeOnePage(refs0, refs[p], mem0, mem, all, chain0, chain[p], live0, live, p);
        HeldFrame(refs0, refs, all, held);
        RootsFrame(refs0, refs, rootPage, all, held);
        FoldCore();
        FoldPut(p, refs0, chain0, live0, ptr);
      }
      FoldPushed(p, refs0, ptr);
      FoldListsAndBits();
    }

    /** Nothing one finds by following next pointers is a freelist of the page, as its descriptor counts it. */
    ghost predicate Broken(p: nat) reads this {
      && p < |refs| && BlockType(refs[p]) < NSIZES
      && !HasFreelist(mem, PageAddr(refs[p]), BlockType(refs[p]), refs[p].offset, refs[p].nfree)
    }

    /** The page stays listed like that. */
    ghost predicate LeftBroken(p: nat, ptr: nat, refs0: seq<PageRef>) reads this {
      Pushed(p, refs0, ptr) && Broken(p) && refs[p].nfree < CountOf(BlockType(refs[p]))
    }

    lemma FoldLeftBroken(p: nat, ptr: nat, refs0: seq<PageRef>)
      requires Pushed(p, refs0, ptr) && Broken(p) && BlockType(refs[p]) < NSIZES
               && refs[p].nfree < CountOf(BlockType(refs[p]))
      ensures LeftBroken(p, ptr, refs0)
    {
    }

    lemma FoldBroken(p: nat)
      requires p < |refs| && BlockType(refs[p]) < NSIZES
      requires !HasFreelist(mem, PageAddr(refs[p]), BlockType(refs[p]), refs[p].offset, refs[p].nfree)
      ensures Broken(p)
    {
    }

    /** What does not depend on the freelists. */
    ghost predicate ListsAndBits() reads this {
      ListsOk(refs, allbase, sizebases, all, same) && BitsOk(inuse, numinuse, rootPage, all, claimed)
    }

    lemma FoldListsAndBits()
      requires ListsOk(refs, allbase, sizebases, all, same) && BitsOk(inuse, numinuse, rootPage, all, claimed)
      ensures ListsAndBits()
    {
    }

    /** The descriptor of page p says that block ptr is the first free one, and one more is free. */
    ghost predicate Pushed(p: nat, refs0: seq<PageRef>, ptr: nat) reads this {
      && p < |refs0| && PageAddr(refs0[p]) <= ptr
      && refs == refs0[p := refs0[p].(offset := ptr - PageAddr(refs0[p]), nfree := refs0[p].nfree + 1)]
    }

    lemma FoldPushed(p: nat, refs0: seq<PageRef>, ptr: nat)
      requires p < |refs0| && PageAddr(refs0[p]) <= ptr
      requires refs == refs0[p := refs0[p].(offset := ptr - PageAddr(refs0[p]), nfree := refs0[p].nfree + 1)]
      ensures Pushed(p, refs0, ptr)
    {
    }

    /** The step put block ptr in front of page p's freelist, and changed nothing else. */
    ghost predicate Put(p: nat, refs0: seq<PageRef>, chain0: map<nat, seq<nat>>, live0: set<nat>, ptr: nat)
      reads this
    {
      && p < |refs0| && p in chain0 && PageAddr(refs0[p]) <= ptr
      && refs == refs0[p := refs0[p].(offset := ptr - PageAddr(refs0[p]), nfree := refs0[p].nfree + 1)]
      && chain == chain0[p := [ptr] + chain0[p]]
      && live == live0 - {ptr}
    }

    lemma FoldPut(p: nat, refs0: seq<PageRef>, chain0: map<nat, seq<nat>>, live0: set<nat>, ptr: nat)
      requires p < |refs0| && p in chain0 && PageAddr(refs0[p]) <= ptr
      requires refs == refs0[p := refs0[p].(offset := ptr - PageAddr(refs0[p]), nfree := refs0[p].nfree + 1)]
      requires chain == chain0[p := [ptr] + chain0[p]] && live == live0 - {ptr}
      ensures Put(p, refs0, chain0, live0, ptr)
    {
    }

    /** The first loop of remove_lists. What `guy' points at is the head of the list when prev is NIL,
        and otherwise the next pointer of prev. */
    method UnlinkSize(pr: nat, b: blocktype) returns (ghost j: nat)
      requires |sizebases| == |same| == NSIZES && LinkedSame(refs, sizebases[b], same[b])
      requires Distinct(same[b]) && pr in same[b]
      modifies this`refs, this`sizebases
      ensures j < |same[b]| && same[b][j] == pr && |sizebases| == NSIZES
      ensures sizebases == old(sizebases)[b := sizebases[b]] && LinkedSame(refs, sizebases[b], Without(same[b], j))
      ensures |refs| == |old(refs)|
      ensures forall q :: 0 <= q < |refs| ==> refs[q] == old(refs)[q].(nextSame := refs[q].nextSame)
      ensures forall q :: 0 <= q < |refs| && q !in same[b] ==> refs[q].nextSame == old(refs)[q].nextSame
    {
      hide Distinct, Without;
      ghost var list := same[b];
      var prev, cur := NIL, sizebases[b];
      j := 0;
      while cur != NIL && cur != pr
        invariant 0 <= j <= |list| && cur == Link(list, j) && prev == Link(list, j - 1)
        invariant forall k :: 0 <= k < j ==> list[k] != pr
        decreases |list| - j
      {
        prev, cur, j := cur, refs[cur].nextSame, j + 1;
      }
      assert j < |list| by {
        var k :| 0 <= k < |list| && list[k] == pr;
      }
      ghost var refs1, base1 := UnlinkSame(refs, sizebases[b], list, j);
      if prev == NIL {
        sizebases := sizebases[b := refs[pr].nextSame];
      } else {
        assert list[j - 1] in list;
        refs := refs[prev := refs[prev].(nextSame := refs[pr].nextSame)];
      }
    }

    /** The second loop of remove_lists. */
    method UnlinkPage(pr: nat) returns (ghost i: nat)
      requires LinkedAll(refs, allbase, all) && Distinct(all) && pr in all
      modifies this`refs, this`allbase
      ensures i < |all| && all[i] == pr && LinkedAll(refs, allbase, Without(all, i))
      ensures |refs| == |old(refs)|
      ensures forall q :: 0 <= q < |refs| ==> refs[q] == old(refs)[q].(nextAll := refs[q].nextAll)
    {
      hide Distinct, Without;
      ghost var list := all;
      var prev, cur := NIL, allbase;
      i := 0;
      while cur != NIL && cur != pr
        invariant 0 <= i <= |list| && cur == Link(list, i) && prev == Link(list, i - 1)
        invariant forall k :: 0 <= k < i ==> list[k] != pr
        decreases |list| - i
      {
        prev, cur, i := cur, refs[cur].nextAll, i + 1;
      }
      assert i < |list| by {
        var k :| 0 <= k < |list| && list[k] == pr;
      }
      ghost var refs2, base2 := UnlinkAll(refs, allbase, list, i);
      if prev == NIL {
        allbase := refs[pr].nextAll;
      } else {
        refs := refs[prev := refs[prev].(nextAll := refs[pr].nextAll)];
      }
    }

    /** remove_lists: the descriptor leaves both lists, and the others keep their order. */
    method RemoveLists(pr: nat, b: blocktype) returns (ghost i: nat, ghost j: nat)
      requires ListsOk(refs, allbase, sizebases, all, same) && pr in all && pr < |refs| && BlockType(refs[pr]) == b
      modifies this`refs, this`sizebases, this`allbase, this`all, this`same
      ensures ListsOk(refs, allbase, sizebases, all, same)
      ensures i < |old(all)| && old(all)[i] == pr && all == Without(old(all), i)
      ensures |old(same)| == NSIZES && j < |old(same)[b]| && old(same)[b][j] == pr
              && same == old(same)[b := Without(old(same)[b], j)]
      ensures |refs| == |old(refs)|
      ensures forall q :: 0 <= q < |refs| ==> refs[q].pab == old(refs)[q].pab && refs[q].offset == old(refs)[q].offset
                                              && refs[q].nfree == old(refs)[q].nfree
    {
      UnfoldLists(refs, allbase, sizebases, all, same);
      hide ListsOk, BlockType, Distinct, LinkedSame, Link, Without;
      ghost var refs0, sizebases0, allbase0 := refs, sizebases, allbase;
      j := UnlinkSize(pr, b);
      ghost var refs1 := refs;
      LinkedAllFrame(refs0, refs, allbase, all);
      i := UnlinkPage(pr);
      DropLists(refs0, allbase0, sizebases0, all, same, b, i, j, refs1, sizebases[b], refs, allbase);
      all, same := Without(all, i), same[b := Without(same[b], j)];
    }

    /** freepageref: walk the roots to the one whose page holds the descriptor. A root passed on the
        way that has no page must have no bit set. */
    method FreePageRef(p: nat) returns (ok: bool)
      requires BitsOk(inuse, numinuse, rootPage, all, claimed)
      requires p < TOTAL && p !in all && p !in claimed && inuse[p / PER_PAGE][p % PER_PAGE]
               && rootPage[p / PER_PAGE] != 0
      modifies this`inuse, this`numinuse
      ensures ok <==> !LeakBefore(old(numinuse), rootPage, p / PER_PAGE)
      ensures ok ==> BitsOk(inuse, numinuse, rootPage, all, claimed)
      ensures ok ==> inuse == old(inuse)[p / PER_PAGE := old(inuse)[p / PER_PAGE][p % PER_PAGE := false]]
      ensures ok ==> OneLess(old(numinuse), numinuse, p)
    {
      hide CountTrue;
      var r := 0;
      while r < NROOTS
        invariant 0 <= r <= p / PER_PAGE && !LeakBefore(numinuse, rootPage, r)
        invariant inuse == old(inuse) && numinuse == old(numinuse)
        decreases NROOTS - r
      {
        if rootPage[r] == 0 {
          if numinuse[r] != 0 {
            return false;
          }
        } else if r == p / PER_PAGE {
          var j := p % PER_PAGE;
          ClearBit(inuse, numinuse, rootPage, all, claimed, p);
          inuse := inuse[r := inuse[r][j := false]];
          numinuse := numinuse[r := numinuse[r] - 1];
          return true;
        }
        r := r + 1;
      }
      assert false;
    }

    /** A wholly free page leaves the lists, and goes to the thread that will free it. */
    method ReleasePage(p: nat) returns (ok: bool)
      requires ListsAndBits() && p in all && p < |refs| && BlockType(refs[p]) < NSIZES
               && refs[p].nfree == CountOf(BlockType(refs[p]))
      requires forall q :: q in all && q != p ==> q < |refs| && NotWhollyFree(refs[q])
      modifies this`refs, this`sizebases, this`allbase, this`all, this`same, this`inuse, this`numinuse, this`held
      ensures ok <==> !LeakBefore(old(numinuse), rootPage, p / PER_PAGE)
      ensures ok ==> forall q :: q in all <==> q in old(all) && q != p
      ensures ok ==> held == old(held) + {PageAddr(old(refs)[p])}
      ensures ok ==> OneLess(old(numinuse), numinuse, p)
      ensures ok && old(Core()) ==> Valid()
      ensures ok && old(Core())
              ==> Listed() == old(Listed()) - {PageAddr(old(refs)[p])} && PageAddr(old(refs)[p]) in old(Listed())
    {
      hide *;
      ghost var whole := Core();
      UnfoldListed();
      UnfoldListsAndBits();
      if whole {
        UnfoldCoreOnly();
        InPool(refs, mem, all, chain, live, p);
        WhollyFree(refs[p], mem, chain[p], live);
      }
      UnfoldLists(refs, allbase, sizebases, all, same);
      ghost var refs0, all0 := refs, all;
      var page := PageAddr(refs[p]);
      ListedBit(inuse, numinuse, rootPage, all, claimed, p);
      ghost var i, j := RemoveLists(p, BlockType(refs[p]));
      UnfoldListed();
      WithoutMembers(all0, i);
      BitsSubset(inuse, numinuse, rootPage, all0, all, claimed);
      if whole {
        ListedDrop(refs0, mem, all0, all, chain, live, p);
        ListedFrame(refs0, refs, all);
        DropPage(refs0, mem, all0, chain, live, i);
        PagesFrame(refs0, refs, mem, all, chain, live);
        HeldFrame(refs0, refs, all0, held);
        RootsFrame(refs0, refs, rootPage, all0, held);
        HoldDropped(refs0, refs, mem, chain, live, rootPage, all0, all, held, p, i);
      }
      ok := FreePageRef(p);
      if ok {
        held := held + {page};
        if whole {
          FoldCore();
          StillBounded(refs0, refs, all0, all, p);
          FoldValid();
        }
      }
    }

    lemma UnfoldListsAndBits()
      requires ListsAndBits()
      ensures ListsOk(refs, allbase, sizebases, all, same) && BitsOk(inuse, numinuse, rootPage, all, claimed)
      ensures |refs| == TOTAL && |rootPage| == |numinuse| == NROOTS && NSIZES == 8
    {
    }

    /** subpage_kfree of any pointer. Of a block that is free already the code notices only when it is the
        first free one; otherwise either the page is left without a freelist, or it is given back
        although one of its blocks is in use. */
    method SubpageFree(ptr: nat) returns (r: Freeing, ghost p: nat)
      requires Valid()
      modifies this`refs, this`mem, this`sizebases, this`allbase, this`inuse, this`numinuse
      modifies this`all, this`same, this`chain, this`live, this`held
      ensures r == NotOurs <==> forall q :: q in old(all) && q < |old(refs)| ==> !InPage(old(refs)[q], ptr)
      ensures r == NotOurs ==> Valid() && refs == old(refs) && live == old(live) && all == old(all) && held == old(held)
      ensures r == NotOurs ==> Listed() == old(Listed()) && mem == old(mem)
      ensures r == NotOurs ==> inuse == old(inuse) && numinuse == old(numinuse)
      ensures r != NotOurs ==> p in old(all) && p < |old(refs)| && p in old(chain) && BlockType(old(refs)[p]) < NSIZES
      ensures r != NotOurs ==> InPage(old(refs)[p], ptr)
      ensures r != NotOurs ==> (r == Panic <==> FreePanics(old(refs), old(chain), old(numinuse), old(rootPage), p, ptr))
      ensures r.Freed? || r.PageFreed?
              ==> OnlyFreed(p, ptr, old(refs), old(mem)) && (ptr in old(live) <==> ptr !in old(chain[p]))
      ensures (r.Freed? || r.PageFreed?) && ptr in old(live) ==> Valid()
      ensures r.PageFreed? ==> OneLess(old(numinuse), numinuse, p)
      ensures r.Freed? && ptr in old(live) ==>
                AfterFreed(p, ptr, old(refs), old(inuse), old(numinuse), old(sizebases), old(allbase),
                           old(all), old(same), old(chain), old(live), old(held))
      ensures r.PageFreed? && ptr in old(live)
              ==> AfterPageFreed(r.page, p, ptr, old(refs), old(all), old(live), old(held))
      ensures r.Freed? && ptr !in old(live) ==> LeftBroken(p, ptr, old(refs)) && all == old(all) && live == old(live)
      ensures r.PageFreed? && ptr !in old(live) ==> UsedPageFreed(r.page, p, old(refs), old(live)) && live == old(live)
    {
      hide *;
      UnfoldCore();
      p := 0;
      var pr := FindPage(ptr);
      if pr == NIL {
        return NotOurs, p;
      }
      p := pr;
      InPool(refs, mem, all, chain, live, p);
      var prpage, blktype := PageAddr(refs[pr]), BlockType(refs[pr]);
      InPageRange(refs[pr], ptr);
      var offset := ptr - prpage;
      SizeWords(blktype);
      AlignedBlock(refs[pr], blktype, offset);
      UnfoldPanics(refs, chain, numinuse, rootPage, p, ptr);
      if offset >= PAGE_SIZE || offset % SizeOf(blktype) != 0 {
        return Panic, p;
      }
      LiveOrFree(refs[p], mem, chain[p], live, ptr);
      r := FreeOn(pr, ptr);
    }

    /** No word outside the block was written. */
    ghost predicate OnlyFreed(p: nat, ptr: nat, refs0: seq<PageRef>, mem0: map<nat, nat>) reads this {
      && p < |refs0| && BlockType(refs0[p]) < NSIZES && ptr in BlocksOf(refs0[p])
      && WroteOnly(mem0, mem, ptr, SizeOf(BlockType(refs0[p])))
    }

    lemma FoldOnlyFreed(p: nat, ptr: nat, refs0: seq<PageRef>, mem0: map<nat, nat>)
      requires p < |refs0| && BlockType(refs0[p]) < NSIZES && ptr in BlocksOf(refs0[p])
      requires WroteOnly(mem0, mem, ptr, SizeOf(BlockType(refs0[p])))
      ensures OnlyFreed(p, ptr, refs0, mem0)
    {
    }

    /** The page stays listed: the block is back on its freelist, and nothing else changed. */
    ghost predicate AfterFreed(p: nat, ptr: nat, refs0: seq<PageRef>, inuse0: seq<seq<bool>>, numinuse0: seq<nat>,
                               sizebases0: seq<int>, allbase0: int, all0: seq<nat>, same0: seq<seq<nat>>,
                               chain0: map<nat, seq<nat>>, live0: set<nat>, held0: set<nat>)
      reads this
    {
      && Put(p, refs0, chain0, live0, ptr) && BlockType(refs[p]) < NSIZES && refs[p].nfree < CountOf(BlockType(refs[p]))
      && inuse == inuse0 && numinuse == numinuse0 && sizebases == sizebases0 && allbase == allbase0
      && all == all0 && same == same0 && held == held0 && Listed() == ListedPages(refs0, all0)
    }

    /** It was the page's last live block: the page left the lists, and the thread holds it. */
    ghost predicate AfterPageFreed(page: nat, p: nat, ptr: nat, refs0: seq<PageRef>, all0: seq<nat>, live0: set<nat>,
                                   held0: set<nat>)
      reads this
    {
      && p < |refs0| && page == PageAddr(refs0[p]) && live == live0 - {ptr} && held == held0 + {page}
      && BlockType(refs0[p]) < NSIZES && refs0[p].nfree + 1 == CountOf(BlockType(refs0[p]))
      && (forall q :: q in all <==> q in all0 && q != p)
      && Listed() == ListedPages(refs0, all0) - {page} && page in ListedPages(refs0, all0)
    }

    lemma FoldFreed(p: nat, ptr: nat, refs0: seq<PageRef>, inuse0: seq<seq<bool>>, numinuse0: seq<nat>,
                    sizebases0: seq<int>, allbase0: int, all0: seq<nat>, same0: seq<seq<nat>>,
                    chain0: map<nat, seq<nat>>, live0: set<nat>, held0: set<nat>)
      requires Put(p, refs0, chain0, live0, ptr) && p < |refs| && BlockType(refs[p]) < NSIZES
      requires refs[p].nfree < CountOf(BlockType(refs[p]))
      requires inuse == inuse0 && numinuse == numinuse0 && sizebases == sizebases0 && allbase == allbase0
      requires all == all0 && same == same0 && held == held0 && Listed() == ListedPages(refs0, all0)
      ensures AfterFreed(p, ptr, refs0, inuse0, numinuse0, sizebases0, allbase0, all0, same0, chain0, live0, held0)
    {
    }

    lemma FoldPageFreed(page: nat, p: nat, ptr: nat, refs0: seq<PageRef>, all0: seq<nat>, live0: set<nat>,
                        held0: set<nat>)
      requires p < |refs0| && page == PageAddr(refs0[p]) && live == live0 - {ptr} && held == held0 + {page}
      requires BlockType(refs0[p]) < NSIZES && refs0[p].nfree + 1 == CountOf(BlockType(refs0[p]))
      requires forall q :: q in all <==> q in all0 && q != p
      requires Listed() == ListedPages(refs0, all0) - {page} && page in ListedPages(refs0, all0)
      ensures AfterPageFreed(page, p, ptr, refs0, all0, live0, held0)
    {
    }

    lemma UnfoldFreed(p: nat, ptr: nat, refs0: seq<PageRef>, inuse0: seq<seq<bool>>, numinuse0: seq<nat>,
                      sizebases0: seq<int>, allbase0: int, all0: seq<nat>, same0: seq<seq<nat>>,
                      chain0: map<nat, seq<nat>>, live0: set<nat>, held0: set<nat>)
      requires AfterFreed(p, ptr, refs0, inuse0, numinuse0, sizebases0, allbase0, all0, same0, chain0, live0, held0)
      ensures Put(p, refs0, chain0, live0, ptr) && live == live0 - {ptr}
      ensures inuse == inuse0 && numinuse == numinuse0 && sizebases == sizebases0 && allbase == allbase0
      ensures all == all0 && same == same0 && held == held0 && Listed() == ListedPages(refs0, all0)
    {
    }

    lemma UnfoldPageFreed(page: nat, p: nat, ptr: nat, refs0: seq<PageRef>, all0: seq<nat>, live0: set<nat>,
                          held0: set<nat>)
      requires AfterPageFreed(page, p, ptr, refs0, all0, live0, held0)
      ensures p < |refs0| && page == PageAddr(refs0[p]) && live == live0 - {ptr} && held == held0 + {page}
      ensures BlockType(refs0[p]) < NSIZES && refs0[p].nfree + 1 == CountOf(BlockType(refs0[p]))
      ensures Listed() == ListedPages(refs0, all0) - {page} && page in ListedPages(refs0, all0)
    {
    }

    /** The rest of subpage_kfree once the block is known to be a block of page pr. */
    method FreeOn(pr: nat, ptr: nat) returns (r: Freeing)
      requires Valid() && pr in all && pr < |refs| && pr in chain && BlockType(refs[pr]) < NSIZES
      requires ptr in BlocksOf(refs[pr])
      modifies this`refs, this`mem, this`sizebases, this`allbase, this`inuse, this`numinuse
      modifies this`all, this`same, this`chain, this`live, this`held
      ensures r != NotOurs
      ensures r == Panic <==> FreePanics(old(refs), old(chain), old(numinuse), old(rootPage), pr, ptr)
      ensures r.Freed? || r.PageFreed? ==> OnlyFreed(pr, ptr, old(refs), old(mem))
      ensures r.PageFreed? ==> OneLess(old(numinuse), numinuse, pr)
      ensures (r.Freed? || r.PageFreed?) && ptr !in old(chain[pr]) ==> Valid()
      ensures r.Freed? && ptr !in old(chain[pr]) ==>
                AfterFreed(pr, ptr, old(refs), old(inuse), old(numinuse), old(sizebases), old(allbase),
                           old(all), old(same), old(chain), old(live), old(held))
      ensures r.PageFreed? && ptr !in old(chain[pr])
              ==> AfterPageFreed(r.page, pr, ptr, old(refs), old(all), old(live), old(held))
      ensures r.Freed? && ptr in old(chain[pr])
              ==> LeftBroken(pr, ptr, old(refs)) && all == old(all) && live == old(live)
      ensures r.PageFreed? && ptr in old(chain[pr])
              ==> UsedPageFreed(r.page, pr, old(refs), old(live)) && live == old(live)
    {
      hide *;
      UnfoldListed();
      UnfoldCore();
      UnfoldBounds(refs, all);
      InPool(refs, mem, all, chain, live, pr);
      ghost var refs0, mem0, chain0, live0, all0, held0 := refs, mem, chain, live, all, held;
      var prpage, blktype := PageAddr(refs[pr]), BlockType(refs[pr]);
      UnfoldPanics(refs, chain, numinuse, rootPage, pr, ptr);
      var ok := PutBlock(pr, ptr);
      if !ok {
        return Panic;
      }
      FoldOnlyFreed(pr, ptr, refs0, mem0);
      OnePushed(pr, refs0, ptr);
      ListedFrame(refs0, refs, all);
      UnfoldListed();
      ghost var inUse := ptr !in chain0[pr];
      if inUse {
        OnePut(pr, refs0, chain0, live0, ptr);
      }
      if refs[pr].nfree == CountOf(blktype) {
        ok := ReleasePage(pr);
        if !ok {
          return Panic;
        }
        FoldOnlyFreed(pr, ptr, refs0, mem0);
        if inUse {
          FoldPageFreed(prpage, pr, ptr, refs0, all0, live0, held0);
        } else {
          OneInUse(prpage, pr, refs0, mem0, chain0[pr], live0);
        }
        return PageFreed(prpage);
      }
      if inUse {
        FoldFreed(pr, ptr, refs0, old(inuse), old(numinuse), old(sizebases), old(allbase), all0, old(same), chain0,
                  live0, held0);
        FoldNotWholly(refs[pr], refs, all, pr, blktype);
        FoldValid();
      } else {
        FoldLeftBroken(pr, ptr, refs0);
      }
      return Freed;
    }

    lemma OnePushed(p: nat, refs0: seq<PageRef>, ptr: nat)
      requires Pushed(p, refs0, ptr)
      ensures p < |refs0| == |refs| && refs[p].nfree == refs0[p].nfree + 1
      ensures forall q :: 0 <= q < |refs| ==> refs[q].pab == refs0[q].pab
      ensures PageAddr(refs[p]) == PageAddr(refs0[p]) && BlockType(refs[p]) == BlockType(refs0[p])
    {
      SamePlace(refs0[p], refs[p]);
    }

    lemma OnePut(p: nat, refs0: seq<PageRef>, chain0: map<nat, seq<nat>>, live0: set<nat>, ptr: nat)
      requires Put(p, refs0, chain0, live0, ptr)
      ensures p < |refs0| == |refs| && refs[p].nfree == refs0[p].nfree + 1 && live == live0 - {ptr}
      ensures forall q :: 0 <= q < |refs| ==> refs[q].pab == refs0[q].pab
      ensures PageAddr(refs[p]) == PageAddr(refs0[p]) && BlockType(refs[p]) == BlockType(refs0[p])
    {
      SamePlace(refs0[p], refs[p]);
    }

    /** A block handed out is on no freelist. */
    lemma LiveNotFree(ptr: nat)
      requires PagesOk(refs, mem, all, chain, live) && ptr in live
      ensures forall q :: q in all && q in chain ==> ptr !in chain[q]
    {
      forall q | q in all && q in chain
        ensures ptr !in chain[q]
      {
        hide IsFreelist, BlocksOf;
        assert PageOk(refs[q], mem, chain[q], live);
        ChainBlocks(refs[q], mem, chain[q], live);
      }
    }

    lemma JustTaken(p: nat, refs0: seq<PageRef>, chain0: map<nat, seq<nat>>, live0: set<nat>, ptr: nat,
                    mem0: map<nat, nat>)
      requires Valid() && p in all && p in chain0 && p < |refs0| && PageOk(refs0[p], mem0, chain0[p], live0)
      requires NotWhollyFree(refs0[p]) && Took(p, refs0, chain0, live0, ptr)
      ensures forall q :: q in all && q in chain ==> ptr !in chain[q]
      ensures forall q :: q in all && q < |refs| && InPage(refs[q], ptr) ==> q == p
      ensures p < |refs| && p in chain && BlockType(refs[p]) < NSIZES && InPage(refs[p], ptr)
      ensures ptr in BlocksOf(refs[p]) && refs[p].nfree + 1 < CountOf(BlockType(refs[p]))
              && !FreePanics(refs, chain, numinuse, rootPage, p, ptr)
      ensures refs0[p].offset == ptr - PageAddr(refs[p]) && |refs| == |refs0|
    {
      hide ListsOk, BitsOk, RootsOk, HeldOk, IsChain, Distinct;
      LiveNotFree(ptr);
      SamePlace(refs0[p], refs[p]);
      assert chain0[p][0] in Elements(chain0[p]);
      BlockRange(refs[p], ptr);
      OnlyPage(refs, mem, all, chain, live, p, ptr);
    }

    lemma UnfoldTook(p: nat, refs0: seq<PageRef>, chain0: map<nat, seq<nat>>, live0: set<nat>, ptr: nat)
      requires Took(p, refs0, chain0, live0, ptr)
      ensures p < |refs0| == |refs| && p in chain0 && chain0[p] != [] && ptr == chain0[p][0] && ptr !in live0
      ensures live == live0 + {ptr} && chain == chain0[p := chain0[p][1..]] && refs0[p].nfree > 0
      ensures refs == refs0[p := refs0[p].(nfree := refs0[p].nfree - 1, offset := refs[p].offset)]
    {
    }

    lemma TookThenPut(p: nat, refs0: seq<PageRef>, chain0: map<nat, seq<nat>>, live0: set<nat>,
                      refs1: seq<PageRef>, chain1: map<nat, seq<nat>>, live1: set<nat>, ptr: nat)
      requires p < |refs0| == |refs1| && p in chain0 && chain0[p] != [] && ptr == chain0[p][0] && ptr !in live0
      requires live1 == live0 + {ptr} && chain1 == chain0[p := chain0[p][1..]] && refs0[p].nfree > 0
      requires refs1 == refs0[p := refs0[p].(nfree := refs0[p].nfree - 1, offset := refs1[p].offset)]
      requires refs0[p].offset == ptr - PageAddr(refs1[p]) && Put(p, refs1, chain1, live1, ptr)
      ensures refs == refs0 && chain == chain0 && live == live0
    {
      hide PageAddr;
      SamePlace(refs0[p], refs1[p]);
      assert chain0[p] == [ptr] + chain0[p][1..];
    }

    /** Allocating from a page already listed and freeing the block restores everything the lists,
        the freelists and the descriptors hold. */
    method AllocateThenFree(b: blocktype) returns (r: Freeing)
      requires Valid() && !TypeFull(refs, all, b)
      modifies this
      ensures Valid() && r == Freed
      ensures refs == old(refs) && chain == old(chain) && live == old(live) && all == old(all) && same == old(same)
      ensures allbase == old(allbase) && sizebases == old(sizebases) && inuse == old(inuse) && numinuse == old(numinuse)
    {
      hide *;
      UnfoldCore();
      UnfoldBounds(refs, all);
      ghost var refs0, chain0, live0, mem0 := refs, chain, live, mem;
      var a, p := SubpageAllocate(b);
      UnfoldTook(p, refs0, chain0, live0, a.ptr);
      InPool(refs0, mem0, all, chain0, live0, p);
      JustTaken(p, refs0, chain0, live0, a.ptr, mem0);
      ghost var refs1, chain1, live1 := refs, chain, live;
      ghost var p';
      r, p' := SubpageFree(a.ptr);
      if r.PageFreed? {
        UnfoldPageFreed(r.page, p, a.ptr, refs1, old(all), live1, old(held));
        assert false;
      }
      UnfoldFreed(p, a.ptr, refs1, old(inuse), old(numinuse), old(sizebases), old(allbase), old(all), old(same), chain1,
                  live1, old(held));
      TookThenPut(p, refs0, chain0, live0, refs1, chain1, live1, a.ptr);
    }

    lemma UnfoldCoreOnly()
      requires Core()
      ensures ListsOk(refs, allbase, sizebases, all, same) && PagesOk(refs, mem, all, chain, live)
      ensures BitsOk(inuse, numinuse, rootPage, all, claimed) && HeldOk(refs, all, held)
      ensures RootsOk(refs, rootPage, all, held)
      ensures |refs| == TOTAL && |rootPage| == |numinuse| == NROOTS && |sizebases| == |same| == NSIZES
    {
    }
  }

  lemma {:induction false} NoneSet(s: seq<bool>)
    requires forall i :: 0 <= i < |s| ==> !s[i]
    ensures CountTrue(s) == 0
  {
    if s != [] {
      NoneSet(s[1..]);
    }
  }

  lemma FoldBounds(refs: seq<PageRef>, all: seq<nat>, p: nat)
    requires p < |refs| && NotWhollyFree(refs[p])
    requires forall q :: q in all && q != p ==> q < |refs| && NotWhollyFree(refs[q])
    ensures NoneWhollyFree(refs, all)
  {
  }

  lemma UnfoldBounds(refs: seq<PageRef>, all: seq<nat>)
    requires NoneWhollyFree(refs, all)
    ensures forall q :: q in all ==> q < |refs| && NotWhollyFree(refs[q])
  {
  }

  lemma UnfoldLists(refs: seq<PageRef>, allbase: int, sizebases: seq<int>, all: seq<nat>, same: seq<seq<nat>>)
    requires ListsOk(refs, allbase, sizebases, all, same)
    ensures |refs| == TOTAL && |sizebases| == |same| == NSIZES
    ensures forall p :: p in all ==> p < TOTAL
    ensures forall b :: 0 <= b < NSIZES ==> LinkedSame(refs, sizebases[b], same[b])
    ensures forall b, p :: 0 <= b < NSIZES ==> (p in same[b] <==> p in all && BlockType(refs[p]) == b)
    ensures LinkedAll(refs, allbase, all) && Distinct(all)
    ensures forall b :: 0 <= b < NSIZES ==> Distinct(same[b])
  {
  }

  lemma EmptyChain(mem: map<nat, nat>)
    ensures IsChain(mem, [])
  {
  }

  lemma BlocksGrow(page: nat, b: blocktype, i: nat)
    ensures Blocks(page, b, i) <= Blocks(page, b, i + 1)
  {
  }

  lemma HeldPage(refs: seq<PageRef>, all: seq<nat>, held: set<nat>, page: nat)
    requires HeldOk(refs, all, held) && page in held
    ensures 0 < page && page % PAGE_SIZE == 0 && page + PAGE_SIZE <= 0x1_0000_0000
  {
  }

  lemma TheBlocks(pr: PageRef, page: nat, b: blocktype)
    requires PageAddr(pr) == page && BlockType(pr) == b
    ensures BlocksOf(pr) == AllBlocks(page, b)
  {
  }

  predicate InPage(pr: PageRef, a: nat) {
    PageAddr(pr) <= a < PageAddr(pr) + PAGE_SIZE
  }

  lemma FoldInPage(pr: PageRef, a: nat)
    requires PageAddr(pr) <= a < PageAddr(pr) + PAGE_SIZE
    ensures InPage(pr, a)
  {
  }

  lemma InPageRange(pr: PageRef, a: nat)
    requires InPage(pr, a)
    ensures PageAddr(pr) <= a < PageAddr(pr) + PAGE_SIZE
  {
  }

  lemma AlignedBlock(pr: PageRef, b: blocktype, offset: nat)
    requires offset < PAGE_SIZE && BlockType(pr) == b
    ensures offset % SizeOf(b) == 0 <==> PageAddr(pr) + offset in BlocksOf(pr)
  {
    AlignedIsBlock(PageAddr(pr), b, offset);
  }

  lemma LiveOrFree(pr: PageRef, mem: map<nat, nat>, chain: seq<nat>, live: set<nat>, ptr: nat)
    requires PageOk(pr, mem, chain, live)
    ensures ptr in BlocksOf(pr) ==> (ptr in live <==> ptr !in chain)
  {
  }

  /** Blocks on a freelist are not handed out. */
  lemma ChainBlocks(pr: PageRef, mem: map<nat, nat>, chain: seq<nat>, live: set<nat>)
    requires PageOk(pr, mem, chain, live)
    ensures forall a :: a in chain ==> a in BlocksOf(pr) && a !in live
  {
    assert forall a :: a in chain ==> a in Elements(chain);
  }

  /** An address is in one listed page at most. */
  lemma OnlyPage(refs: seq<PageRef>, mem: map<nat, nat>, all: seq<nat>, chain: map<nat, seq<nat>>, live: set<nat>,
                 p: nat, ptr: nat)
    requires PagesOk(refs, mem, all, chain, live) && p in all && InPage(refs[p], ptr)
    ensures forall q :: q in all && q < |refs| && InPage(refs[q], ptr) ==> q == p
  {
    forall q | q in all && q < |refs| && q != p
      ensures !InPage(refs[q], ptr)
    {
      AddrAligned(refs[p]);
      AddrAligned(refs[q]);
      OnePage(PageAddr(refs[p]), PageAddr(refs[q]), ptr);
    }
  }

  lemma FoldNotWholly(pr: PageRef, refs: seq<PageRef>, all: seq<nat>, p: nat, b: blocktype)
    requires p < |refs| && pr == refs[p] && BlockType(pr) == b && pr.nfree < CountOf(b)
    requires forall q :: q in all && q != p ==> q < |refs| && NotWhollyFree(refs[q])
    ensures NoneWhollyFree(refs, all)
  {
  }

  /** Every root has all its bits set. */
  ghost predicate RootsFull(numinuse: seq<nat>) {
    forall r :: 0 <= r < |numinuse| ==> numinuse[r] == PER_PAGE
  }

  /** The bit was set in root r, the first that was not full. */
  ghost predicate FirstRoot(numinuse0: seq<nat>, numinuse: seq<nat>, r: nat) {
    && r < |numinuse0| && numinuse0[r] < PER_PAGE && numinuse == numinuse0[r := numinuse0[r] + 1]
    && forall i :: 0 <= i < r ==> numinuse0[i] == PER_PAGE
  }

  /** One descriptor less is in use of the root that p belongs to. */
  ghost predicate OneLess(numinuse0: seq<nat>, numinuse: seq<nat>, p: nat) {
    && PER_PAGE > 0 && p / PER_PAGE < |numinuse0| && numinuse0[p / PER_PAGE] > 0
    && numinuse == numinuse0[p / PER_PAGE := numinuse0[p / PER_PAGE] - 1]
  }

  /** The first root that was not full has a page. */
  ghost predicate RootHadPage(numinuse0: seq<nat>, numinuse: seq<nat>, rootPage: seq<nat>) {
    exists r :: 0 <= r < |rootPage| && FirstRoot(numinuse0, numinuse, r) && rootPage[r] != 0
  }

  lemma FoldHadPage(numinuse0: seq<nat>, numinuse: seq<nat>, rootPage: seq<nat>, r: nat)
    requires r < |rootPage| && FirstRoot(numinuse0, numinuse, r) && rootPage[r] != 0
    ensures RootHadPage(numinuse0, numinuse, rootPage)
  {
  }

  /** Some root before r has bits set but no page: what a failed allocation of a page of
      descriptors leaves behind, as its bit is never cleared. */
  ghost predicate LeakBefore(numinuse: seq<nat>, rootPage: seq<nat>, r: nat) {
    exists i :: 0 <= i < r && i < |rootPage| && i < |numinuse| && rootPage[i] == 0 && numinuse[i] != 0
  }

  /** subpage_kfree of a pointer on page p panics: no block starts there, the block is the first free one
      already, or the page's descriptor cannot be given back. */
  ghost predicate FreePanics(refs: seq<PageRef>, chain: map<nat, seq<nat>>, numinuse: seq<nat>, rootPage: seq<nat>,
                             p: nat, ptr: nat)
    requires p < |refs| && p in chain && BlockType(refs[p]) < NSIZES
  {
    || ptr !in BlocksOf(refs[p])
    || IsFirst(ptr, chain[p])
    || (refs[p].nfree + 1 == CountOf(BlockType(refs[p])) && LeakBefore(numinuse, rootPage, p / PER_PAGE))
  }

  lemma UnfoldPanics(refs: seq<PageRef>, chain: map<nat, seq<nat>>, numinuse: seq<nat>, rootPage: seq<nat>, p: nat,
                     ptr: nat)
    requires p < |refs| && p in chain && BlockType(refs[p]) < NSIZES
    ensures NSIZES == 8
    ensures FreePanics(refs, chain, numinuse, rootPage, p, ptr) <==>
            || ptr !in BlocksOf(refs[p]) || IsFirst(ptr, chain[p])
            || (refs[p].nfree + 1 == CountOf(BlockType(refs[p])) && LeakBefore(numinuse, rootPage, p / PER_PAGE))
  {
  }

  lemma ClaimInPool(inuse: seq<seq<bool>>, numinuse: seq<nat>, rootPage: seq<nat>, all: seq<nat>, claimed: set<nat>,
                    p: nat)
    requires BitsOk(inuse, numinuse, rootPage, all, claimed) && p in claimed
    ensures PER_PAGE > 0 && p < TOTAL && p / PER_PAGE < |rootPage| == NROOTS
  {
  }

  lemma Unclaim(inuse: seq<seq<bool>>, numinuse: seq<nat>, rootPage: seq<nat>, all: seq<nat>, claimed: set<nat>, p: nat)
    requires BitsOk(inuse, numinuse, rootPage, all, claimed)
    ensures BitsOk(inuse, numinuse, rootPage, all, claimed - {p})
  {
  }

  lemma Unhold(refs: seq<PageRef>, rootPage: seq<nat>, all: seq<nat>, held: set<nat>, va: nat)
    requires HeldOk(refs, all, held) && RootsOk(refs, rootPage, all, held)
    ensures HeldOk(refs, all, held - {va}) && RootsOk(refs, rootPage, all, held - {va})
  {
  }

  lemma SizeWords(b: blocktype)
    ensures SizeOf(b) % 4 == 0 && SizeOf(b) > 0
  {
  }

  /** The freelist offset is that of the first free block. */
  lemma HeadOffset(pr: PageRef, mem: map<nat, nat>, chain: seq<nat>, live: set<nat>)
    requires PageOk(pr, mem, chain, live)
    ensures chain == [] <==> pr.offset == INVALID_OFFSET
    ensures chain != [] ==> chain[0] == PageAddr(pr) + pr.offset
  {
  }

  lemma OnlyThatPage(pr: PageRef, mem0: map<nat, nat>, mem: map<nat, nat>)
    requires OnlyOnPage(pr, mem0, mem)
    ensures WroteOnly(mem0, mem, PageAddr(pr), PAGE_SIZE)
  {
    hide PageAddr, Load;
  }

  lemma OnlyThere(mem0: map<nat, nat>, mem1: map<nat, nat>, mem: map<nat, nat>, ptr: nat, size: nat)
    requires size > 0 && forall a: nat :: !(ptr <= a < ptr + size) ==> Load(mem1, a) == Load(mem0, a)
    requires forall a: nat :: a != ptr ==> Load(mem, a) == Load(mem1, a)
    ensures WroteOnly(mem0, mem, ptr, size)
  {
  }

  lemma Stored(mem: map<nat, nat>, mem': map<nat, nat>, a: nat, v: nat)
    requires mem' == mem[a := v]
    ensures Load(mem', a) == v && forall x :: x != a ==> Load(mem', x) == Load(mem, x)
  {
  }

  /** The page given back, whose blocks all count as free, has one that somebody is using. */
  ghost predicate UsedPageFreed(page: nat, p: nat, refs0: seq<PageRef>, live0: set<nat>) {
    && p < |refs0| && page == PageAddr(refs0[p])
    && BlockType(refs0[p]) < NSIZES && refs0[p].nfree + 1 == CountOf(BlockType(refs0[p]))
    && exists x :: x in live0 && x in BlocksOf(refs0[p])
  }

  /** With all blocks but one free, that one is in use. */
  lemma OneInUse(page: nat, p: nat, refs0: seq<PageRef>, mem0: map<nat, nat>, chain: seq<nat>, live0: set<nat>)
    requires p < |refs0| && page == PageAddr(refs0[p]) && PageOk(refs0[p], mem0, chain, live0)
    requires refs0[p].nfree + 1 == CountOf(BlockType(refs0[p]))
    ensures UsedPageFreed(page, p, refs0, live0)
  {
    var pr := refs0[p];
    FreelistBound(mem0, PageAddr(pr), BlockType(pr), pr.offset, pr.nfree, chain);
    var rest := AllBlocks(PageAddr(pr), BlockType(pr)) - Elements(chain);
    assert rest != {};
    var x :| x in rest;
    assert x in BlocksOf(pr) && x in live0;
  }

  predicate IsFirst(ptr: nat, chain: seq<nat>) {
    chain != [] && chain[0] == ptr
  }

  lemma Firsts(ptr: nat, chain: seq<nat>)
    ensures IsFirst(ptr, chain) <==> chain != [] && chain[0] == ptr
    ensures IsFirst(ptr, chain) ==> ptr in chain
  {
  }

  lemma OneMoreFree(pr: PageRef, pr': PageRef)
    requires NotWhollyFree(pr) && pr'.pab == pr.pab && pr'.nfree == pr.nfree + 1 && BlockType(pr) < NSIZES
    ensures pr'.nfree <= CountOf(BlockType(pr'))
  {
    SamePlace(pr, pr');
  }

  /** A block that was free comes up twice when one follows the page's next pointers. */
  lemma NoListLeft(pr: PageRef, pr': PageRef, mem: map<nat, nat>, mem': map<nat, nat>, chain: seq<nat>, live: set<nat>,
                   ptr: nat)
    requires PageOk(pr, mem, chain, live) && ptr in BlocksOf(pr) && ptr in chain
    requires forall x :: x in chain && x != ptr ==> Load(mem', x) == Load(mem, x)
    requires Load(mem', ptr) == if pr.offset == INVALID_OFFSET then 0 else PageAddr(pr) + pr.offset
    requires ptr >= PageAddr(pr) && pr' == pr.(nfree := pr.nfree + 1, offset := ptr - PageAddr(pr))
    ensures BlockType(pr') < NSIZES && !HasFreelist(mem', PageAddr(pr'), BlockType(pr'), pr'.offset, pr'.nfree)
  {
    hide PageAddr, BlockType, IsFreelist, Load, AllBlocks;
    SamePlace(pr, pr');
    PushedIffLive(mem, mem', PageAddr(pr), BlockType(pr), pr.offset, pr.nfree, chain, ptr);
  }

  /** Overwriting one block touches no other free block of its page. */
  lemma OnlyThisBlock(pr: PageRef, mem0: map<nat, nat>, mem1: map<nat, nat>, mem: map<nat, nat>, chain: seq<nat>,
                      live: set<nat>, ptr: nat, size: nat)
    requires PageOk(pr, mem0, chain, live) && ptr in BlocksOf(pr) && size == SizeOf(BlockType(pr))
    requires forall a: nat :: !(ptr <= a < ptr + size) ==> Load(mem1, a) == Load(mem0, a)
    requires forall a: nat :: a != ptr ==> Load(mem, a) == Load(mem1, a)
    ensures forall x :: x in chain && x != ptr ==> Load(mem, x) == Load(mem0, x)
    ensures OnlyOnPage(pr, mem0, mem)
  {
    hide SizeOf, AllBlocks, Load;
    BlocksApart(PageAddr(pr), BlockType(pr), ptr, ptr);
    forall x | x in chain && x != ptr
      ensures Load(mem, x) == Load(mem0, x)
    {
      assert x in Elements(chain);
      BlocksApart(PageAddr(pr), BlockType(pr), ptr, x);
    }
  }

  lemma SamePageRange(pr: PageRef, pr': PageRef, mem: map<nat, nat>, mem': map<nat, nat>)
    requires PageAddr(pr') == PageAddr(pr) && OnlyOnPage(pr, mem, mem')
    ensures OnlyOnPage(pr', mem, mem')
  {
  }

  lemma ListedBit(inuse: seq<seq<bool>>, numinuse: seq<nat>, rootPage: seq<nat>, all: seq<nat>, claimed: set<nat>,
                  p: nat)
    requires BitsOk(inuse, numinuse, rootPage, all, claimed) && p in all
    ensures |inuse| == |rootPage| == 16 && p < 4096 == TOTAL && PER_PAGE == 256 && NROOTS == 16
    ensures |inuse[p / PER_PAGE]| == PER_PAGE
    ensures inuse[p / PER_PAGE][p % PER_PAGE] && rootPage[p / PER_PAGE] != 0 && p !in claimed
  {
  }

  lemma BitsSubset(inuse: seq<seq<bool>>, numinuse: seq<nat>, rootPage: seq<nat>, all: seq<nat>, all': seq<nat>,
                   claimed: set<nat>)
    requires BitsOk(inuse, numinuse, rootPage, all, claimed) && forall q :: q in all' ==> q in all
    ensures BitsOk(inuse, numinuse, rootPage, all', claimed)
  {
  }

  /** A page that left the lists is apart from those that stay, and from pages of descriptors. */
  lemma HoldDropped(refs0: seq<PageRef>, refs: seq<PageRef>, mem: map<nat, nat>, chain: map<nat, seq<nat>>,
                    live: set<nat>,
                    rootPage: seq<nat>, all0: seq<nat>, all: seq<nat>, held: set<nat>, p: nat, i: nat)
    requires PagesOk(refs0, mem, all0, chain, live) && |refs| == TOTAL && p in all0 && Distinct(all0)
    requires forall q :: q in all ==> q in all0 && q != p
    requires forall q :: 0 <= q < |refs| ==> refs[q].pab == refs0[q].pab
    requires HeldOk(refs, all0, held) && RootsOk(refs, rootPage, all0, held)
    ensures HeldOk(refs, all, held + {PageAddr(refs0[p])}) && RootsOk(refs, rootPage, all, held + {PageAddr(refs0[p])})
  {
    hide IsFreelist, BlocksOf, OnAPage;
    assert PageOk(refs0[p], mem, chain[p], live);
    AddrAligned(refs0[p]);
    SamePlace(refs0[p], refs[p]);
    forall q | q in all
      ensures PageAddr(refs[q]) != PageAddr(refs0[p])
    {
      SamePlace(refs0[q], refs[q]);
    }
  }

  lemma StillBounded(refs0: seq<PageRef>, refs: seq<PageRef>, all0: seq<nat>, all: seq<nat>, p: nat)
    requires |refs| == |refs0| && forall q :: q in all ==> q in all0 && q != p
    requires forall q :: q in all0 && q != p ==> q < |refs0| && NotWhollyFree(refs0[q])
    requires forall q :: 0 <= q < |refs| ==> refs[q].pab == refs0[q].pab && refs[q].nfree == refs0[q].nfree
    ensures NoneWhollyFree(refs, all)
  {
    forall q | q in all
      ensures NotWhollyFree(refs[q])
    {
      SamePlace(refs0[q], refs[q]);
    }
  }

  lemma OnlyTheBlocks(pr: PageRef, mem: map<nat, nat>, mem': map<nat, nat>)
    requires forall a :: a !in BlocksOf(pr) ==> Load(mem', a) == Load(mem, a)
    ensures OnlyOnPage(pr, mem, mem')
  {
    hide PageAddr, BlocksOf, Load;
    forall a | a in BlocksOf(pr)
      ensures PageAddr(pr) <= a < PageAddr(pr) + PAGE_SIZE
    {
      BlockRange(pr, a);
    }
  }

  lemma OthersBounded(refs: seq<PageRef>, refs': seq<PageRef>, all: seq<nat>, p: nat)
    requires NoneWhollyFree(refs, all) && |refs'| == |refs| && p !in all
    requires forall q :: q in all ==> refs'[q] == refs[q]
    ensures forall q :: q in [p] + all && q != p ==> q < |refs'| && NotWhollyFree(refs'[q])
  {
  }
}
