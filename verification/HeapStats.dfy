/** What the heap reports about itself, and what it promises about every pair of live blocks. */
module HeapStats {
  import opened Sequences
  import opened Products
  import opened Words
  import opened Freelist
  import opened PageRefs
  import opened HeapInvariant
  import opened HeapWrites
  import opened KHeap

  /** Blocks of a page that are handed out. */
  ghost function LiveOn(pr: PageRef, live: set<nat>): set<nat> {
    BlocksOf(pr) * live
  }

  /** The size of a live block: that of the blocks of its page. */
  ghost function BlockSize(h: Heap, a: nat): nat
    reads h
  {
    if h.Valid() && OnAPage(h.refs, h.all, a) then
      (var p :| p in h.all && p < TOTAL && a in BlocksOf(h.refs[p]);
       if BlockType(h.refs[p]) < NSIZES then SizeOf(BlockType(h.refs[p])) else 0)
    else 0
  }

  /** The total size of a set of live blocks. */
  ghost function TotalSize(h: Heap, blocks: set<nat>): nat
    reads h
  {
    if blocks == {} then 0 else
      var a :| a in blocks; BlockSize(h, a) + TotalSize(h, blocks - {a})
  }

  lemma {:induction false} TotalSizeRemove(h: Heap, blocks: set<nat>, x: nat)
    requires x in blocks
    ensures TotalSize(h, blocks) == BlockSize(h, x) + TotalSize(h, blocks - {x})
    decreases |blocks|
  {
    hide BlockSize;
    var a :| a in blocks && TotalSize(h, blocks) == BlockSize(h, a) + TotalSize(h, blocks - {a});
    if a != x {
      TotalSizeRemove(h, blocks - {a}, x);
      TotalSizeRemove(h, blocks - {x}, a);
      assert blocks - {a} - {x} == blocks - {x} - {a};
    }
  }

  lemma {:induction false} TotalSizeUnion(h: Heap, s: set<nat>, t: set<nat>)
    requires s !! t
    ensures TotalSize(h, s + t) == TotalSize(h, s) + TotalSize(h, t)
    decreases |s|
  {
    hide BlockSize;
    if s == {} {
      assert s + t == t;
    } else {
      var x :| x in s;
      TotalSizeRemove(h, s, x);
      TotalSizeRemove(h, s + t, x);
      TotalSizeUnion(h, s - {x}, t);
      assert s + t - {x} == s - {x} + t;
    }
  }

  lemma {:induction false} SameSizes(h: Heap, s: set<nat>, size: nat)
    requires forall a :: a in s ==> BlockSize(h, a) == size
    ensures TotalSize(h, s) == size * |s|
    decreases |s|
  {
    hide BlockSize;
    if s != {} {
      var x :| x in s;
      TotalSizeRemove(h, s, x);
      SameSizes(h, s - {x}, size);
      assert |s| == |s - {x}| + 1;
      Distribute1(size, |s - {x}|);
    }
  }

  lemma Distribute1(size: nat, n: nat)
    ensures size * (n + 1) == size + size * n
  {
  }

  /** A block is on one page only, so its size is that page's. */
  lemma SizeOnPage(h: Heap, p: nat, a: nat)
    requires h.Valid() && p in h.all && p < |h.refs| && a in BlocksOf(h.refs[p])
    ensures BlockType(h.refs[p]) < NSIZES && BlockSize(h, a) == SizeOf(BlockType(h.refs[p]))
  {
    hide ListsOk, BitsOk, HeldOk, RootsOk, PageOk, BlocksOf, NotWhollyFree, PageAddr, SizeOf, BlockType;
    h.UnfoldCore();
    InPool(h.refs, h.mem, h.all, h.chain, h.live, p);
    assert OnAPage(h.refs, h.all, a);
    var q :| q in h.all && q < TOTAL && a in BlocksOf(h.refs[q])
             && BlockSize(h, a) == if BlockType(h.refs[q]) < NSIZES then SizeOf(BlockType(h.refs[q])) else 0;
    BlockRange(h.refs[p], a);
    BlockRange(h.refs[q], a);
    OnlyPage(h.refs, h.mem, h.all, h.chain, h.live, p, a);
  }

  /** The number of the block at an offset into its page. */
  function IndexOf(offset: nat, b: blocktype): nat {
    offset / SizeOf(b)
  }

  /** The walk of subpage_stats along a page's freelist. */
  method FreeMap(pr: PageRef, mem: map<nat, nat>, ghost chain: seq<nat>, ghost live: set<nat>)
    returns (freemap: seq<bool>)
    requires PageOk(pr, mem, chain, live) && BlockType(pr) < NSIZES
    ensures MarkedTo(freemap, PageAddr(pr), BlockType(pr), chain, |chain|)
  {
    hide *;
    TypeBound(pr);
    var prpage, blktype := PageAddr(pr), BlockType(pr);
    freemap := seq(CountOf(blktype), k => false);
    HeadOffset(pr, mem, chain, live);
    NoneMarked(freemap, prpage, blktype, chain);
    ghost var i := 0;
    var fl := 0;
    if pr.offset != INVALID_OFFSET {
      fl := prpage + pr.offset;
    }
    ChainAt(pr, mem, chain, live, 0);
    while fl != 0
      invariant 0 <= i <= |chain| && fl == At(chain, i) && (fl == 0 <==> i == |chain|)
      invariant MarkedTo(freemap, prpage, blktype, chain, i)
      decreases |chain| - i
    {
      ChainAt(pr, mem, chain, live, i);
      var index := IndexOf(fl - prpage, blktype);
      MarkNext(freemap, prpage, blktype, chain, i, index);
      freemap := freemap[index := true];
      fl, i := Load(mem, fl), i + 1;
      ChainAt(pr, mem, chain, live, i);
    }
  }

  lemma TypeBound(pr: PageRef)
    requires BlockType(pr) < NSIZES
    ensures BlockType(pr) < 8
  {
  }

  /** subpage_stats: mark the free blocks, and report the bytes in the others. */
  method SubpageStats(h: Heap, pr: nat) returns (freemap: seq<bool>, used: nat)
    requires h.Valid() && pr in h.all && pr < |h.refs| && BlockType(h.refs[pr]) < NSIZES
    ensures |freemap| == CountOf(BlockType(h.refs[pr]))
    ensures forall k :: 0 <= k < |freemap| ==>
              (freemap[k] <==> BlockAt(PageAddr(h.refs[pr]), BlockType(h.refs[pr]), k) !in h.live)
    ensures used == TotalSize(h, LiveOn(h.refs[pr], h.live))
  {
    hide *;
    h.UnfoldCore();
    InPool(h.refs, h.mem, h.all, h.chain, h.live, pr);
    var blktype := BlockType(h.refs[pr]);
    freemap := FreeMap(h.refs[pr], h.mem, h.chain[pr], h.live);
    AllMarked(h.refs[pr], h.mem, h.chain[pr], h.live, blktype, freemap);
    UsedBytes(h, pr);
    used := SizeOf(blktype) * (CountOf(blktype) - h.refs[pr].nfree);
  }

  /** The bits of the first i blocks of the freelist are set. */
  ghost predicate MarkedTo(freemap: seq<bool>, page: nat, b: blocktype, chain: seq<nat>, i: nat) {
    && |freemap| == CountOf(b) && i <= |chain|
    && forall k :: 0 <= k < |freemap| ==> (freemap[k] <==> BlockAt(page, b, k) in chain[..i])
  }

  lemma NoneMarked(freemap: seq<bool>, page: nat, b: blocktype, chain: seq<nat>)
    requires |freemap| == CountOf(b) && forall k :: 0 <= k < |freemap| ==> !freemap[k]
    ensures MarkedTo(freemap, page, b, chain, 0)
  {
  }

  lemma ChainAt(pr: PageRef, mem: map<nat, nat>, chain: seq<nat>, live: set<nat>, i: nat)
    requires PageOk(pr, mem, chain, live) && i <= |chain|
    ensures At(chain, i) == 0 <==> i == |chain|
    ensures chain != [] ==> At(chain, 0) == chain[0]
    ensures i < |chain| ==> At(chain, i) == chain[i] && PageAddr(pr) <= chain[i]
                            && Load(mem, chain[i]) == At(chain, i + 1)
    ensures i < |chain| ==> BlockType(pr) < NSIZES && chain[i] in AllBlocks(PageAddr(pr), BlockType(pr))
  {
    if i < |chain| {
      OnChain(pr, mem, chain, live, i);
    }
  }

  lemma MarkNext(freemap: seq<bool>, page: nat, b: blocktype, chain: seq<nat>, i: nat, index: nat)
    requires MarkedTo(freemap, page, b, chain, i) && i < |chain|
    requires chain[i] in AllBlocks(page, b) && chain[i] >= page && index == IndexOf(chain[i] - page, b)
    ensures index < |freemap| && MarkedTo(freemap[index := true], page, b, chain, i + 1)
  {
    hide BlockAt, CountOf, SizeOf, Blocks;
    BlockNumber(page, b, chain[i], index);
    Marked(page, b, chain, i, index, |freemap|);
  }

  lemma OnChain(pr: PageRef, mem: map<nat, nat>, chain: seq<nat>, live: set<nat>, i: nat)
    requires PageOk(pr, mem, chain, live) && i < |chain|
    ensures At(chain, i) == chain[i] != 0 && PageAddr(pr) <= chain[i] && chain[i] in BlocksOf(pr)
    ensures Load(mem, chain[i]) == At(chain, i + 1)
    ensures BlockType(pr) < NSIZES && chain[i] in AllBlocks(PageAddr(pr), BlockType(pr))
  {
    hide AllBlocks, Load;
    assert chain[i] in Elements(chain);
    BlocksApart(PageAddr(pr), BlockType(pr), chain[i], chain[i]);
  }

  lemma BlockNumber(page: nat, b: blocktype, a: nat, index: nat)
    requires a in AllBlocks(page, b) && a >= page && index == IndexOf(a - page, b)
    ensures index < CountOf(b) && BlockAt(page, b, index) == a
  {
    var k := BlockIndex(page, b, CountOf(b), a);
    hide CountOf;
    UniqueQuotient(a - page, SizeOf(b), k, 0);
  }

  lemma Marked(page: nat, b: blocktype, chain: seq<nat>, i: nat, index: nat, n: nat)
    requires i < |chain| && index < n && chain[i] == BlockAt(page, b, index)
    ensures forall k: nat :: k < n ==>
              (BlockAt(page, b, k) in chain[..i + 1] <==> BlockAt(page, b, k) in chain[..i] || k == index)
  {
    assert chain[..i + 1] == chain[..i] + [chain[i]];
    forall k: nat | k < n && k != index
      ensures BlockAt(page, b, k) != BlockAt(page, b, index)
    {
      Apart(k, index, SizeOf(b));
    }
  }

  lemma AllMarked(pr: PageRef, mem: map<nat, nat>, chain: seq<nat>, live: set<nat>, b: blocktype, freemap: seq<bool>)
    requires PageOk(pr, mem, chain, live) && BlockType(pr) == b && MarkedTo(freemap, PageAddr(pr), b, chain, |chain|)
    ensures |freemap| == CountOf(b)
    ensures forall k :: 0 <= k < |freemap| ==> (freemap[k] <==> BlockAt(PageAddr(pr), b, k) !in live)
  {
    hide BlockAt, CountOf, Blocks, IsFreelist;
    assert chain[..|chain|] == chain;
    forall k: nat | k < |freemap|
      ensures BlockAt(PageAddr(pr), b, k) in BlocksOf(pr)
    {
      BlockInPage(PageAddr(pr), b, CountOf(b), k);
    }
  }

  /** The bytes in the blocks that are not free. */
  lemma UsedBytes(h: Heap, p: nat)
    requires h.Valid() && p in h.all && p < |h.refs| && BlockType(h.refs[p]) < NSIZES
    ensures CountOf(BlockType(h.refs[p])) >= h.refs[p].nfree
    ensures SizeOf(BlockType(h.refs[p])) * (CountOf(BlockType(h.refs[p])) - h.refs[p].nfree)
            == TotalSize(h, LiveOn(h.refs[p], h.live))
  {
    hide *;
    h.UnfoldCore();
    var pr, chain := h.refs[p], h.chain[p];
    InPool(h.refs, h.mem, h.all, h.chain, h.live, p);
    LiveCount(pr, h.mem, chain, h.live);
    forall a | a in LiveOn(pr, h.live)
      ensures BlockSize(h, a) == SizeOf(BlockType(pr))
    {
      LiveOnMember(pr, h.live, a);
      SizeOnPage(h, p, a);
    }
    SameSizes(h, LiveOn(pr, h.live), SizeOf(BlockType(pr)));
  }

  lemma LiveOnMember(pr: PageRef, live: set<nat>, a: nat)
    ensures a in LiveOn(pr, live) <==> a in BlocksOf(pr) && a in live
  {
  }

  lemma LiveCount(pr: PageRef, mem: map<nat, nat>, chain: seq<nat>, live: set<nat>)
    requires PageOk(pr, mem, chain, live)
    ensures BlockType(pr) < NSIZES && pr.nfree <= CountOf(BlockType(pr))
    ensures |LiveOn(pr, live)| == CountOf(BlockType(pr)) - pr.nfree
  {
    hide CountOf, AllBlocks;
    FreelistBound(mem, PageAddr(pr), BlockType(pr), pr.offset, pr.nfree, chain);
    assert LiveOn(pr, live) == AllBlocks(PageAddr(pr), BlockType(pr)) - Elements(chain);
  }

  // ----- the whole heap

  ghost function LiveOnList(refs: seq<PageRef>, list: seq<nat>, live: set<nat>): set<nat> {
    if list == [] then {} else
      LiveOnList(refs, list[..|list| - 1], live)
      + if list[|list| - 1] < |refs| then LiveOn(refs[list[|list| - 1]], live) else {}
  }

  lemma {:induction false} LiveOnListIs(refs: seq<PageRef>, list: seq<nat>, live: set<nat>, a: nat)
    ensures a in LiveOnList(refs, list, live) <==> exists p :: p in list && p < |refs| && a in LiveOn(refs[p], live)
  {
    hide LiveOn;
    if list != [] {
      var l := list[..|list| - 1];
      LiveOnListIs(refs, l, live, a);
      assert list == l + [list[|list| - 1]];
      assert forall p :: p in list <==> p in l || p == list[|list| - 1];
    }
  }

  /** Every live block is on exactly one listed page. */
  lemma AllLive(h: Heap)
    requires h.Valid()
    ensures LiveOnList(h.refs, h.all, h.live) == h.live
  {
    hide *;
    h.UnfoldCore();
    forall a
      ensures a in LiveOnList(h.refs, h.all, h.live) <==> a in h.live
    {
      LiveOnListIs(h.refs, h.all, h.live, a);
      if a in h.live {
        var p := PageOfLive(h, a);
        LiveOnMember(h.refs[p], h.live, a);
      }
      forall p | p in h.all && p < |h.refs| && a in LiveOn(h.refs[p], h.live)
        ensures a in h.live
      {
        LiveOnMember(h.refs[p], h.live, a);
      }
    }
  }

  lemma PageOfLive(h: Heap, a: nat) returns (p: nat)
    requires h.Valid() && a in h.live
    ensures p in h.all && p < |h.refs| && a in BlocksOf(h.refs[p])
  {
    hide PageOk, BlocksOf, ListsOk, BitsOk;
    assert OnAPage(h.refs, h.all, a);
    p :| p in h.all && p < TOTAL && a in BlocksOf(h.refs[p]);
  }

  /** One more page adds its live blocks, which are on no page before it. */
  lemma NextPage(h: Heap, i: nat)
    requires h.Valid() && i < |h.all| && h.all[i] < |h.refs|
    ensures TotalSize(h, LiveOnList(h.refs, h.all[..i + 1], h.live))
         == TotalSize(h, LiveOnList(h.refs, h.all[..i], h.live)) + TotalSize(h, LiveOn(h.refs[h.all[i]], h.live))
  {
    hide *;
    h.UnfoldCore();
    UnfoldLists(h.refs, h.allbase, h.sizebases, h.all, h.same);
    var s, t := LiveOnList(h.refs, h.all[..i], h.live), LiveOn(h.refs[h.all[i]], h.live);
    forall a | a in s && a in t
      ensures false
    {
      LiveOnListIs(h.refs, h.all[..i], h.live, a);
      var p :| p in h.all[..i] && p < |h.refs| && a in LiveOn(h.refs[p], h.live);
      LiveOnMember(h.refs[p], h.live, a);
      LiveOnMember(h.refs[h.all[i]], h.live, a);
      BlockRange(h.refs[p], a);
      BlockRange(h.refs[h.all[i]], a);
      assert p in h.all;
      FoldInPage(h.refs[p], a);
      FoldInPage(h.refs[h.all[i]], a);
      DistinctBefore(h.all, i, p);
      OnlyPage(h.refs, h.mem, h.all, h.chain, h.live, p, a);
    }
    LiveOnSnoc(h.refs, h.all, h.live, i);
    TotalSizeUnion(h, s, t);
  }

  lemma DistinctBefore(list: seq<nat>, i: nat, p: nat)
    requires Distinct(list) && i < |list| && p in list[..i]
    ensures p != list[i]
  {
  }

  lemma LiveOnSnoc(refs: seq<PageRef>, list: seq<nat>, live: set<nat>, i: nat)
    requires i < |list| && list[i] < |refs|
    ensures LiveOnList(refs, list[..i + 1], live) == LiveOnList(refs, list[..i], live) + LiveOn(refs[list[i]], live)
  {
    assert list[..i + 1][..i] == list[..i];
  }

  lemma {:induction false} DistinctBound(s: seq<nat>, n: nat)
    requires Distinct(s) && forall x :: x in s ==> x < n
    ensures |s| <= n
  {
    DistinctCount(s);
    Below(n);
    SubsetCount(Elements(s), NatsBelow(n));
  }

  ghost function NatsBelow(n: nat): set<nat> {
    if n == 0 then {} else NatsBelow(n - 1) + {n - 1}
  }

  lemma {:induction false} Below(n: nat)
    ensures |NatsBelow(n)| == n && forall x: nat :: x in NatsBelow(n) <==> x < n
  {
    if n > 0 {
      Below(n - 1);
    }
  }

  lemma PageTotal(h: Heap, p: nat)
    requires h.Valid() && p in h.all && p < |h.refs|
    ensures TotalSize(h, LiveOn(h.refs[p], h.live)) <= PAGE_SIZE
  {
    hide *;
    h.UnfoldCore();
    InPool(h.refs, h.mem, h.all, h.chain, h.live, p);
    UsedBytes(h, p);
    SizeTable(BlockType(h.refs[p]));
    LessTimes(SizeOf(BlockType(h.refs[p])), CountOf(BlockType(h.refs[p])), h.refs[p].nfree);
  }

  lemma LessTimes(s: nat, n: nat, f: nat)
    requires f <= n
    ensures s * (n - f) <= n * s
  {
  }

  /** kheap_getused: the bytes in live blocks, plus what the coremap counts beyond the heap's pages. */
  method GetUsed(h: Heap, coremapBytes: word) returns (total: word)
    requires h.Valid()
    ensures coremapBytes == 0 ==> total == TotalSize(h, h.live)
    ensures coremapBytes > 0 ==> total == U32(TotalSize(h, h.live) + coremapBytes - |h.all| * PAGE_SIZE)
  {
    hide *;
    HeapLists(h);
    var pr, numPages, sum := h.allbase, 0, 0;
    while pr != NIL
      invariant 0 <= numPages <= |h.all| && pr == Link(h.all, numPages) && (pr == NIL <==> numPages == |h.all|)
      invariant sum == TotalSize(h, LiveOnList(h.refs, h.all[..numPages], h.live)) && sum <= numPages * PAGE_SIZE
      decreases |h.all| - numPages
    {
      NextLink(h, numPages);
      var freemap, used := SubpageStats(h, pr);
      PageTotal(h, pr);
      NextPage(h, numPages);
      sum := sum + used;
      pr, numPages := h.refs[pr].nextAll, numPages + 1;
      if numPages < |h.all| { NextLink(h, numPages); } else { LastLink(h.all); }
    }
    assert h.all[..numPages] == h.all;
    AllLive(h);
    total := sum;
    if coremapBytes > 0 {
      WrapOnce(total, coremapBytes, numPages * PAGE_SIZE);
      total := Add32(total, Sub32(coremapBytes, numPages * PAGE_SIZE));
    }
  }

  lemma HeapLists(h: Heap)
    requires h.Valid()
    ensures h.allbase == Link(h.all, 0) && (h.allbase == NIL <==> h.all == []) && |h.all| <= 4096 && PAGE_SIZE == 4096
    ensures TotalSize(h, LiveOnList(h.refs, h.all[..0], h.live)) == 0
  {
    UnfoldLists(h.refs, h.allbase, h.sizebases, h.all, h.same);
    DistinctBound(h.all, 4096);
  }

  lemma WrapOnce(t: word, c: word, n: word)
    ensures Add32(t, Sub32(c, n)) == U32(t + c - n)
  {
  }

  lemma NextLink(h: Heap, i: nat)
    requires h.Valid() && i < |h.all|
    ensures h.all[i] in h.all && h.all[i] < |h.refs| && Link(h.all, i) == h.all[i] != NIL
    ensures h.refs[h.all[i]].nextAll == Link(h.all, i + 1) && BlockType(h.refs[h.all[i]]) < NSIZES
  {
    hide BlockType;
    UnfoldLists(h.refs, h.allbase, h.sizebases, h.all, h.same);
  }

  lemma LastLink(list: seq<nat>)
    ensures Link(list, |list|) == NIL
  {
  }

  // ----- blocks never overlap

  /** Any two blocks, live or free, are apart; each is a multiple of its own size and inside one page. */
  lemma BlocksDisjoint(h: Heap, p: nat, q: nat, x: nat, y: nat)
    requires h.Valid() && p in h.all && q in h.all && p < |h.refs| && q < |h.refs|
    requires x in BlocksOf(h.refs[p]) && y in BlocksOf(h.refs[q]) && x != y
    ensures x + BlockSize(h, x) <= y || y + BlockSize(h, y) <= x
    ensures BlockSize(h, x) > 0 && x % BlockSize(h, x) == 0
    ensures PageAddr(h.refs[p]) <= x && x + BlockSize(h, x) <= PageAddr(h.refs[p]) + PAGE_SIZE
  {
    hide *;
    h.UnfoldCore();
    SizeOnPage(h, p, x);
    SizeOnPage(h, q, y);
    Inside(h.refs[p], x);
    Inside(h.refs[q], y);
    if p == q {
      BlocksOfIs(h.refs[p]);
      BlocksApart(PageAddr(h.refs[p]), BlockType(h.refs[p]), x, y);
    } else {
      DifferentPages(h.refs, h.mem, h.all, h.chain, h.live, p, q);
    }
  }

  lemma Inside(pr: PageRef, a: nat)
    requires a in BlocksOf(pr) && BlockType(pr) < NSIZES
    ensures SizeOf(BlockType(pr)) > 0 && a % SizeOf(BlockType(pr)) == 0
    ensures PageAddr(pr) <= a && a + SizeOf(BlockType(pr)) <= PageAddr(pr) + PAGE_SIZE
    ensures PageAddr(pr) % PAGE_SIZE == 0 && PAGE_SIZE == 4096
  {
    BlocksOfIs(pr);
    BlocksApart(PageAddr(pr), BlockType(pr), a, a);
    AddrAligned(pr);
    hide *;
    SizeTable(BlockType(pr));
    BlockRange(pr, a);
    AlignedBlock(pr, BlockType(pr), a - PageAddr(pr));
    AlignedSum(PageAddr(pr), a - PageAddr(pr), SizeOf(BlockType(pr)));
  }

  lemma AlignedSum(page: nat, offset: nat, s: nat)
    requires s == 16 || s == 32 || s == 64 || s == 128 || s == 256 || s == 512 || s == 1024 || s == 2048
    requires page % 4096 == 0 && offset % s == 0
    ensures (page + offset) % s == 0
  {
    var n: nat := if s == 16 then 256 else if s == 32 then 128 else if s == 64 then 64 else if s == 128 then 32
                  else if s == 256 then 16 else if s == 512 then 8 else if s == 1024 then 4 else 2;
    WholeSum(page, offset, n, s);
  }

  lemma WholeSum(page: nat, offset: nat, n: nat, s: nat)
    requires s > 0 && n * s == 4096 && page % 4096 == 0 && offset % s == 0
    ensures (page + offset) % s == 0
  {
    var j, o := page / 4096, offset / s;
    DivTimes(offset, s);
    Associate(j, n, s);
    Distribute(j * n, o, s);
    UniqueQuotient(page + offset, s, j * n + o, 0);
  }

  lemma DivTimes(x: nat, s: nat)
    requires s > 0 && x % s == 0
    ensures x / s * s == x
  {
  }

  /** A block got for a request of sz bytes has room for it. */
  lemma RoomEnough(h: Heap, sz: nat, b: blocktype, ptr: nat)
    requires h.Valid() && FitsBest(sz, b) && h.Allocated(ptr, b)
    ensures ptr in h.live && sz <= BlockSize(h, ptr) && ptr % BlockSize(h, ptr) == 0
    ensures forall c: blocktype :: SizeOf(c) < BlockSize(h, ptr) ==> SizeOf(c) < sz
  {
    var p :| p in h.all && p < |h.refs| && BlockType(h.refs[p]) == b && ptr in BlocksOf(h.refs[p]);
    SizeOnPage(h, p, ptr);
    Inside(h.refs[p], ptr);
    hide *;
    UnfoldFits(sz, b);
    forall c: blocktype | SizeOf(c) < SizeOf(b)
      ensures SizeOf(c) < sz
    {
      SizesGrow(b, c);
    }
  }

  lemma UnfoldFits(sz: nat, b: blocktype)
    requires FitsBest(sz, b)
    ensures sz <= SizeOf(b) && forall c: blocktype :: c < b ==> SizeOf(c) < sz
  {
  }

  lemma SizesGrow(b: blocktype, c: blocktype)
    ensures SizeOf(c) < SizeOf(b) <==> c < b
  {
  }
}
