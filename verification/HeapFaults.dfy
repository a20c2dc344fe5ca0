/** Runs of the heap that go wrong: what a caller, or the arithmetic of kmalloc, can do to it. */
module HeapFaults {
  import opened Words
  import opened Freelist
  import opened PageRefs
  import opened HeapInvariant
  import opened HeapWrites
  import opened KHeap
  import opened KMalloc

  /** The heap has page 4096, cut into blocks of type b, and no other page; n of the blocks are free. */
  ghost predicate OnePageHeap(h: Heap, p: nat, b: blocktype, n: nat)
    reads h
  {
    && h.Valid() && h.all == [p] && p < |h.refs| && p in h.chain && p / PER_PAGE == 0 && PageAddr(h.refs[p]) == 4096
    && BlockType(h.refs[p]) == b && h.refs[p].nfree == n == |h.chain[p]|
  }

  lemma UnfoldOnePage(h: Heap, p: nat, b: blocktype, n: nat)
    requires OnePageHeap(h, p, b, n)
    ensures h.Valid() && h.all == [p] && p < |h.refs| && p in h.chain && PER_PAGE > 0 && p / PER_PAGE == 0
    ensures PageAddr(h.refs[p]) == 4096 == PAGE_SIZE && BlockType(h.refs[p]) == b < NSIZES
    ensures h.refs[p].nfree == n == |h.chain[p]|
    ensures n > 0 ==> !TypeFull(h.refs, h.all, b)
  {
    assert p in h.all;
  }

  lemma FoldOnePage(h: Heap, p: nat, b: blocktype, n: nat)
    requires h.Valid() && h.all == [p] && p < |h.refs| && PER_PAGE > 0 && p / PER_PAGE == 0
             && PageAddr(h.refs[p]) == 4096
    requires BlockType(h.refs[p]) == b && h.refs[p].nfree == n
    ensures OnePageHeap(h, p, b, n)
  {
    h.UnfoldCore();
    hide *;
    assert p in h.all;
    InPool(h.refs, h.mem, h.all, h.chain, h.live, p);
    FoldOnly(h, p, b, n);
  }

  lemma FoldOnly(h: Heap, p: nat, b: blocktype, n: nat)
    requires h.Valid() && h.all == [p] && p < |h.refs| && PER_PAGE > 0 && p / PER_PAGE == 0
             && PageAddr(h.refs[p]) == 4096
    requires BlockType(h.refs[p]) == b && h.refs[p].nfree == n && p in h.chain && |h.chain[p]| == n
    ensures OnePageHeap(h, p, b, n)
  {
  }

  lemma NoBlocks(h: Heap, b: blocktype)
    requires Leaked(h, 0)
    ensures TypeFull(h.refs, h.all, b) && 4096 !in h.rootPage && 8192 !in h.rootPage
  {
  }

  /** A heap with one page, from which one block is taken. */
  method FirstBlock(b: blocktype) returns (h: Heap, ptr: nat, ghost p: nat)
    ensures fresh(h) && OnePageHeap(h, p, b, CountOf(b) - 1) && h.live == {ptr} && ptr in BlocksOf(h.refs[p])
  {
    hide *;
    h := new Heap();
    NoneLeaked(h);
    UnfoldLeaked(h, 0);
    NoBlocks(h, b);
    h.TakeKPage(4096);
    ghost var numinuse0 := h.numinuse;
    var a := h.AddPage(b, 4096);
    NoRootHasPage(numinuse0, h.numinuse, h.rootPage);
    NextInRoot(numinuse0, h.numinuse, a.pr / PER_PAGE, 0);
    h.TakeKPage(8192);
    var pr := a.pr;
    p := pr;
    a := h.RootPageArrived(pr, b, 4096, 8192);
    ptr := a.ptr;
    UnfoldObtained(h, ptr, b, 4096, {});
    UnfoldJustListed(h, p, b, 4096);
    LiveHere(h, p, ptr);
    FoldOnePage(h, p, b, CountOf(b) - 1);
  }

  /** With one page, every live block is on it. */
  lemma LiveHere(h: Heap, p: nat, ptr: nat)
    requires h.Valid() && h.all == [p] && ptr in h.live
    ensures p < |h.refs| && ptr in BlocksOf(h.refs[p]) && InPage(h.refs[p], ptr)
    ensures p in h.chain ==> ptr !in h.chain[p]
  {
    hide *;
    var q := LiveBlock(h, ptr);
    assert q == p;
  }

  /** Another block of the page. */
  method NextBlock(h: Heap, ghost p: nat, b: blocktype, ghost n: nat) returns (ptr: nat)
    requires OnePageHeap(h, p, b, n) && n > 0
    modifies h`refs, h`chain, h`live
    ensures OnePageHeap(h, p, b, n - 1) && ptr !in old(h.live) && h.live == old(h.live) + {ptr}
    ensures p in old(h.chain) && old(h.chain)[p] != [] && h.chain == old(h.chain)[p := old(h.chain)[p][1..]]
  {
    hide *;
    UnfoldOnePage(h, p, b, n);
    ghost var refs0, chain0, live0 := h.refs, h.chain, h.live;
    var a, q := h.SubpageAllocate(b);
    assert q == p;
    ptr := a.ptr;
    UnfoldTaken(h, p, refs0, chain0, live0, ptr);
    FoldOnePage(h, p, b, n - 1);
  }

  lemma UnfoldTaken(h: Heap, p: nat, refs0: seq<PageRef>, chain0: map<nat, seq<nat>>, live0: set<nat>, ptr: nat)
    requires h.Took(p, refs0, chain0, live0, ptr)
    ensures p < |refs0| == |h.refs| && p in chain0 && chain0[p] != [] && ptr == chain0[p][0] && ptr !in live0
    ensures h.live == live0 + {ptr} && h.chain == chain0[p := chain0[p][1..]]
    ensures refs0[p].nfree > 0 && h.refs[p].nfree == refs0[p].nfree - 1
    ensures PageAddr(h.refs[p]) == PageAddr(refs0[p]) && BlockType(h.refs[p]) == BlockType(refs0[p])
  {
    h.UnfoldTook(p, refs0, chain0, live0, ptr);
    SamePlace(refs0[p], h.refs[p]);
  }

  /** kfree of a block in use, which is not the last of its page. */
  method GiveBack(h: Heap, ghost p: nat, b: blocktype, ghost n: nat, ptr: nat) returns (r: Freeing)
    requires OnePageHeap(h, p, b, n) && ptr in h.live && n + 1 < CountOf(b)
    modifies h
    ensures r == Freed && OnePageHeap(h, p, b, n + 1) && h.live == old(h.live) - {ptr}
    ensures p in old(h.chain) && h.chain == old(h.chain)[p := [ptr] + old(h.chain)[p]]
  {
    hide *;
    UnfoldOnePage(h, p, b, n);
    LiveHere(h, p, ptr);
    ghost var refs0, chain0, live0, all0, held0 := h.refs, h.chain, h.live, h.all, h.held;
    ghost var inuse0, numinuse0, sizebases0, allbase0, same0, rootPage0 :=
      h.inuse, h.numinuse, h.sizebases, h.allbase, h.same, h.rootPage;
    UnfoldPanics(refs0, chain0, numinuse0, rootPage0, p, ptr);
    Firsts(ptr, chain0[p]);
    ghost var q;
    r, q := h.SubpageFree(ptr);
    assert q == p;
    if r.PageFreed? {
      h.UnfoldPageFreed(r.page, p, ptr, refs0, all0, live0, held0);
    }
    h.UnfoldFreed(p, ptr, refs0, inuse0, numinuse0, sizebases0, allbase0, all0, same0, chain0, live0, held0);
    UnfoldBack(h, p, refs0, chain0, live0, ptr);
    FoldOnePage(h, p, b, n + 1);
  }

  lemma UnfoldBack(h: Heap, p: nat, refs0: seq<PageRef>, chain0: map<nat, seq<nat>>, live0: set<nat>, ptr: nat)
    requires h.Put(p, refs0, chain0, live0, ptr)
    ensures p < |refs0| == |h.refs| && p in chain0 && h.chain == chain0[p := [ptr] + chain0[p]]
    ensures h.refs[p].nfree == refs0[p].nfree + 1
    ensures PageAddr(h.refs[p]) == PageAddr(refs0[p]) && BlockType(h.refs[p]) == BlockType(refs0[p])
  {
    SamePlace(refs0[p], h.refs[p]);
  }

  // ----- a block freed twice

  /** Of four blocks the first and the second are freed, and then the first again: kfree does not notice, and
      the page has no freelist any more. */
  method FreedTwice() returns (h: Heap, r: Freeing, ghost p: nat)
    ensures fresh(h) && r == Freed && p in h.all && h.Broken(p)
  {
    var x, y, z: nat;
    h, x, y, z, p := ThreeBlocks();
    SixIs();
    hide *;
    var last := NextBlock(h, p, 6, 1);
    r := GiveBack(h, p, 6, 0, x);
    r := GiveBack(h, p, 6, 1, y);
    UnfoldOnePage(h, p, 6, 2);
    FreeAgain(h, p, 6, 2, x);
    ghost var refs0, chain0, numinuse0, rootPage0 := h.refs, h.chain, h.numinuse, h.rootPage;
    UnfoldPanics(refs0, chain0, numinuse0, rootPage0, p, x);
    Firsts(x, chain0[p]);
    ghost var q;
    r, q := h.SubpageFree(x);
    assert q == p;
    CountsAre(refs0, p, r, h.live);
    UnfoldLeft(h, p, x, refs0);
  }

  /** Of three blocks the first and the second are freed, and then the first again: now all four blocks of the page
      count as free, and kfree gives the page back, although the third is in use. */
  method FreedTwiceInUse() returns (h: Heap, r: Freeing, inUse: nat)
    ensures fresh(h) && r == PageFreed(4096) && inUse in h.live && 4096 <= inUse < 8192
  {
    var x, y: nat;
    ghost var p;
    h, x, y, inUse, p := ThreeBlocks();
    SixIs();
    hide *;
    r := GiveBack(h, p, 6, 1, x);
    r := GiveBack(h, p, 6, 2, y);
    UnfoldOnePage(h, p, 6, 3);
    FreeAgain(h, p, 6, 3, x);
    LiveHere(h, p, inUse);
    InPageRange(h.refs[p], inUse);
    ghost var refs0, chain0, numinuse0, rootPage0 := h.refs, h.chain, h.numinuse, h.rootPage;
    UnfoldPanics(refs0, chain0, numinuse0, rootPage0, p, x);
    NoneBefore(numinuse0, rootPage0);
    Firsts(x, chain0[p]);
    ghost var q;
    r, q := h.SubpageFree(x);
    assert q == p;
    if r.Freed? {
      UnfoldLeft(h, p, x, refs0);
    }
    CountsAre(refs0, p, r, h.live);
  }

  /** Three of the four blocks of a page, in use. */
  method ThreeBlocks() returns (h: Heap, x: nat, y: nat, z: nat, ghost p: nat)
    ensures fresh(h) && OnePageHeap(h, p, 6, 1) && h.live == {x, y, z} && x != y && x != z && y != z
  {
    SixIs();
    hide *;
    h, x, p := FirstBlock(6);
    y := NextBlock(h, p, 6, 3);
    z := NextBlock(h, p, 6, 2);
  }

  lemma SixIs()
    ensures CountOf(6) == 4
  {
  }

  /** The second of two blocks given back is first on the freelist, and the first is in it. */
  lemma FreeAgain(h: Heap, p: nat, b: blocktype, n: nat, x: nat)
    requires OnePageHeap(h, p, b, n) && p in h.chain && n >= 2 && h.chain[p][0] != x == h.chain[p][1]
    ensures x !in h.live && x in BlocksOf(h.refs[p]) && InPage(h.refs[p], x) && !IsFirst(x, h.chain[p])
  {
    h.UnfoldCore();
    assert p in h.all && x in h.chain[p];
    hide *;
    InPool(h.refs, h.mem, h.all, h.chain, h.live, p);
    ChainBlocks(h.refs[p], h.mem, h.chain[p], h.live);
    BlockRange(h.refs[p], x);
    FoldInPage(h.refs[p], x);
    Firsts(x, h.chain[p]);
  }

  lemma NoneBefore(numinuse: seq<nat>, rootPage: seq<nat>)
    ensures !LeakBefore(numinuse, rootPage, 0)
  {
  }

  lemma CountsAre(refs: seq<PageRef>, p: nat, r: Freeing, live: set<nat>)
    requires r.PageFreed? ==> UsedPageFreed(r.page, p, refs, live)
    ensures r.PageFreed? ==> p < |refs| && BlockType(refs[p]) < NSIZES
                             && refs[p].nfree + 1 == CountOf(BlockType(refs[p]))
    ensures r.PageFreed? ==> r.page == PageAddr(refs[p])
  {
  }

  lemma UnfoldLeft(h: Heap, p: nat, ptr: nat, refs0: seq<PageRef>)
    requires h.LeftBroken(p, ptr, refs0)
    ensures p < |refs0| && BlockType(refs0[p]) < NSIZES && refs0[p].nfree + 1 < CountOf(BlockType(refs0[p]))
            && h.Broken(p)
  {
    h.OnePushed(p, refs0, ptr);
  }

  // ----- a request that wraps around

  /** A caller asks for 2^32 - 1 bytes. The rounding wraps, kmalloc asks for no page at all, and alloc_kpages may answer
      with the address of a page it has not given to anybody. When others later have the blocks of that page, they
      lie where the caller believes its memory is, and its kfree frees one of them. */
  method WrappedRequest() returns (got: nat, h: Heap, other: nat, r: Freeing)
    ensures FreshRun(got, PagesFor(0xffff_ffff), {}, map[]) && got != 0
    ensures fresh(h) && other in h.live && got <= other < got + 0xffff_ffff
    ensures r == Freed && got !in h.live
  {
    got := 4096;
    SevenIs();
    hide *;
    var x, y: nat;
    ghost var p;
    h, x, p := FirstBlock(7);
    y := NextBlock(h, p, 7, 1);
    other := if x == 4096 then y else x;
    AllInUse(h, p);
    LiveHere(h, p, other);
    UnfoldOnePage(h, p, 7, 0);
    InPageRange(h.refs[p], other);
    r := GiveBack(h, p, 7, 0, 4096);
  }

  lemma SevenIs()
    ensures CountOf(7) == 2 && PAGE_SIZE == 4096 && FreshRun(4096, PagesFor(0xffff_ffff), {}, map[])
  {
    LargestRequest();
  }

  /** With no block free, the first of the page is in use. */
  lemma AllInUse(h: Heap, p: nat)
    requires OnePageHeap(h, p, 7, 0)
    ensures 4096 in h.live
  {
    h.UnfoldCore();
    assert p in h.all && PageOk(h.refs[p], h.mem, h.chain[p], h.live);
    BlockInPage(4096, 7, CountOf(7), 0);
    assert BlockAt(4096, 7, 0) == 4096 && 4096 in BlocksOf(h.refs[p]);
  }
}
