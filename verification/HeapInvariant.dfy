/** The invariant of the subpage allocator, part by part, and what each kind of change does to it. */
module HeapInvariant {
  import opened Sequences
  import opened Freelist
  import opened PageRefs

  // ----- the lists

  /** The list of each block type, distinct and linked. */
  ghost predicate SizeLists(refs: seq<PageRef>, sizebases: seq<int>, same: seq<seq<nat>>) {
    && |sizebases| == |same| == NSIZES
    && forall b :: 0 <= b < NSIZES ==> LinkedSame(refs, sizebases[b], same[b]) && Distinct(same[b])
  }

  /** A page is on the list of block type b exactly when it is listed and of that type. */
  ghost predicate OnOwnList(refs: seq<PageRef>, all: seq<nat>, same: seq<seq<nat>>) {
    && |same| == NSIZES
    && (forall p :: p in all ==> p < |refs|)
    && forall b, p :: 0 <= b < NSIZES ==> (p in same[b] <==> p in all && BlockType(refs[p]) == b)
  }

  /** Each listed page is on allbase once, and once on the list of its own block type. */
  ghost predicate ListsOk(refs: seq<PageRef>, allbase: int, sizebases: seq<int>, all: seq<nat>, same: seq<seq<nat>>) {
    && |refs| == TOTAL
    && LinkedAll(refs, allbase, all) && Distinct(all)
    && SizeLists(refs, sizebases, same)
    && OnOwnList(refs, all, same)
  }

  /** Nothing about the lists depends on the freelist fields. */
  lemma ListsFrame(refs: seq<PageRef>, refs': seq<PageRef>, allbase: int, sizebases: seq<int>, all: seq<nat>,
                   same: seq<seq<nat>>)
    requires ListsOk(refs, allbase, sizebases, all, same) && |refs'| == |refs|
    requires forall p :: 0 <= p < |refs| ==>
               refs'[p].nextAll == refs[p].nextAll && refs'[p].nextSame == refs[p].nextSame
                                             && refs'[p].pab == refs[p].pab
    ensures ListsOk(refs', allbase, sizebases, all, same)
  {
    LinkedAllFrame(refs, refs', allbase, all);
    forall b | 0 <= b < NSIZES
      ensures LinkedSame(refs', sizebases[b], same[b])
    {
      assert forall p :: p in same[b] ==> p in all;
      LinkedSameFrame(refs, refs', sizebases[b], same[b]);
    }
    OwnListFrame(refs, refs', all, same);
  }

  lemma OwnListFrame(refs: seq<PageRef>, refs': seq<PageRef>, all: seq<nat>, same: seq<seq<nat>>)
    requires OnOwnList(refs, all, same) && |refs'| == |refs|
    requires forall p :: p in all ==> refs'[p].pab == refs[p].pab
    ensures OnOwnList(refs', all, same)
  {
    forall p | p in all
      ensures BlockType(refs'[p]) == BlockType(refs[p])
    {
    }
  }

  /** A descriptor not on the lists is put in front of both. */
  lemma JoinLists(refs: seq<PageRef>, allbase: int, sizebases: seq<int>, all: seq<nat>, same: seq<seq<nat>>,
                  p: nat, pr: PageRef, b: nat)
    requires ListsOk(refs, allbase, sizebases, all, same) && p < TOTAL && p !in all && b < NSIZES
    requires pr.nextSame == sizebases[b] && pr.nextAll == allbase && BlockType(pr) == b
    ensures ListsOk(refs[p := pr], p, sizebases[b := p], [p] + all, same[b := [p] + same[b]])
  {
    var refs', sizebases', same' := refs[p := pr], sizebases[b := p], same[b := [p] + same[b]];
    PushAll(refs, allbase, all, p, pr);
    forall c | 0 <= c < NSIZES
      ensures LinkedSame(refs', sizebases'[c], same'[c]) && Distinct(same'[c])
    {
      assert p !in same[c];
      if c == b {
        PushSame(refs, sizebases[b], same[b], p, pr);
      } else {
        assert forall q :: q in same[c] ==> q in all;
        LinkedSameFrame(refs, refs', sizebases[c], same[c]);
      }
    }
    JoinOwnList(refs, all, same, p, pr, b);
  }

  lemma JoinOwnList(refs: seq<PageRef>, all: seq<nat>, same: seq<seq<nat>>, p: nat, pr: PageRef, b: nat)
    requires OnOwnList(refs, all, same) && p < |refs| && p !in all && b < NSIZES && BlockType(pr) == b
    ensures OnOwnList(refs[p := pr], [p] + all, same[b := [p] + same[b]])
  {
    hide BlockType;
    var same' := same[b := [p] + same[b]];
    forall c, q | 0 <= c < NSIZES
      ensures q in same'[c] <==> q in [p] + all && BlockType(refs[p := pr][q]) == c
    {
      assert q in same[c] <==> q in all && BlockType(refs[q]) == c;
    }
  }

  /** What remove_lists does: the descriptor at all[i], which is same[b][j], leaves both lists. */
  lemma DropLists(refs: seq<PageRef>, allbase: int, sizebases: seq<int>, all: seq<nat>, same: seq<seq<nat>>,
                  b: nat, i: nat, j: nat, refs1: seq<PageRef>, base1: int, refs2: seq<PageRef>, base2: int)
    requires ListsOk(refs, allbase, sizebases, all, same) && b < NSIZES
    requires i < |all| && j < |same[b]| && all[i] == same[b][j]
    requires |refs1| == |refs2| == |refs| && LinkedSame(refs1, base1, Without(same[b], j))
    requires forall p :: 0 <= p < |refs| ==> refs1[p].pab == refs[p].pab
    requires forall p :: 0 <= p < |refs| && p !in same[b] ==> refs1[p].nextSame == refs[p].nextSame
    requires LinkedAll(refs2, base2, Without(all, i))
    requires forall p :: 0 <= p < |refs| ==> refs2[p].nextSame == refs1[p].nextSame && refs2[p].pab == refs1[p].pab
    ensures ListsOk(refs2, base2, sizebases[b := base1], Without(all, i), same[b := Without(same[b], j)])
  {
    var same', sizebases' := same[b := Without(same[b], j)], sizebases[b := base1];
    WithoutMembers(all, i);
    WithoutMembers(same[b], j);
    forall c | 0 <= c < NSIZES
      ensures LinkedSame(refs2, sizebases'[c], same'[c]) && Distinct(same'[c])
    {
      if c == b {
        LinkedSameFrame(refs1, refs2, base1, same'[b]);
      } else {
        assert forall q :: q in same[c] ==> q in all && q !in same[b];
        LinkedSameFrame(refs, refs2, sizebases[c], same[c]);
      }
    }
    OwnListFrame(refs, refs2, all, same);
    DropOwnList(refs2, all, same, b, i, j);
  }

  lemma DropOwnList(refs: seq<PageRef>, all: seq<nat>, same: seq<seq<nat>>, b: nat, i: nat, j: nat)
    requires OnOwnList(refs, all, same) && b < NSIZES && i < |all| && j < |same[b]| && all[i] == same[b][j]
    requires Distinct(all) && Distinct(same[b])
    ensures OnOwnList(refs, Without(all, i), same[b := Without(same[b], j)])
  {
    hide BlockType;
    WithoutMembers(all, i);
    WithoutMembers(same[b], j);
    var same' := same[b := Without(same[b], j)];
    assert all[i] in same[b];
    forall c, q | 0 <= c < NSIZES
      ensures q in same'[c] <==> q in Without(all, i) && BlockType(refs[q]) == c
    {
      assert q in same[c] <==> q in all && BlockType(refs[q]) == c;
    }
  }

  // ----- the pages

  ghost function BlocksOf(pr: PageRef): set<nat> {
    if BlockType(pr) < NSIZES then AllBlocks(PageAddr(pr), BlockType(pr)) else {}
  }

  /** A listed page: its freelist is well formed, and each block is either handed out or free. */
  ghost predicate PageOk(pr: PageRef, mem: map<nat, nat>, chain: seq<nat>, live: set<nat>) {
    && BlockType(pr) < NSIZES
    && 0 < PageAddr(pr) && PageAddr(pr) + PAGE_SIZE <= 0x1_0000_0000
    && IsFreelist(mem, PageAddr(pr), BlockType(pr), pr.offset, pr.nfree, chain)
    && forall a :: a in BlocksOf(pr) ==> (a in live <==> a !in chain)
  }

  ghost predicate PagesOk(refs: seq<PageRef>, mem: map<nat, nat>, all: seq<nat>, chain: map<nat, seq<nat>>,
                          live: set<nat>) {
    && |refs| == TOTAL
    && (forall p :: p in all ==> p < TOTAL && p in chain && PageOk(refs[p], mem, chain[p], live))
    && (forall p, q :: p in all && q in all && p != q ==> PageAddr(refs[p]) != PageAddr(refs[q]))
    && (forall a :: a in live ==> OnAPage(refs, all, a))
  }

  ghost predicate OnAPage(refs: seq<PageRef>, all: seq<nat>, a: nat)
    requires |refs| == TOTAL
  {
    exists p :: p in all && p < TOTAL && a in BlocksOf(refs[p])
  }

  /** Blocks of one page lie inside it, so pages at different addresses share none. */
  lemma PagesApart(pr: PageRef, qr: PageRef, a: nat)
    requires PageAddr(pr) != PageAddr(qr) && a in BlocksOf(pr)
    ensures a !in BlocksOf(qr)
    ensures PageAddr(pr) <= a < PageAddr(pr) + PAGE_SIZE
  {
    hide PageAddr, BlocksOf;
    BlockRange(pr, a);
    if a in BlocksOf(qr) {
      BlockRange(qr, a);
      OnePage(PageAddr(pr), PageAddr(qr), a);
    }
  }

  lemma BlockRange(pr: PageRef, a: nat)
    requires a in BlocksOf(pr)
    ensures PageAddr(pr) <= a < PageAddr(pr) + PAGE_SIZE && PageAddr(pr) % PAGE_SIZE == 0
  {
    var b := BlockType(pr);
    SizeTable(b);
    BlocksCount(PageAddr(pr), b, CountOf(b));
  }

  lemma AddrAligned(pr: PageRef)
    ensures PageAddr(pr) % PAGE_SIZE == 0
  {
  }

  lemma OnePage(x: nat, y: nat, a: nat)
    requires x % PAGE_SIZE == 0 && y % PAGE_SIZE == 0
    requires x <= a < x + PAGE_SIZE
    ensures x != y ==> !(y <= a < y + PAGE_SIZE)
  {
  }

  /** A page stays as it is when memory and the set of live blocks change only outside it. */
  lemma PageFrame(pr: PageRef, mem: map<nat, nat>, mem': map<nat, nat>, chain: seq<nat>, live: set<nat>,
                  live': set<nat>)
    requires PageOk(pr, mem, chain, live)
    requires forall a :: a in BlocksOf(pr) ==> (a in live' <==> a in live)
    requires forall a :: a in BlocksOf(pr) && a in chain ==> Load(mem', a) == Load(mem, a)
    ensures PageOk(pr, mem', chain, live')
  {
    forall i | 0 <= i < |chain|
      ensures Load(mem', chain[i]) == At(chain, i + 1)
    {
      assert chain[i] in Elements(chain);
    }
  }

  lemma TakeFromOne(pr: PageRef, pr': PageRef, mem: map<nat, nat>, chain: seq<nat>, live: set<nat>, ptr: nat, fl: nat)
    requires PageOk(pr, mem, chain, live) && pr.nfree > 0
    requires ptr == PageAddr(pr) + pr.offset && fl == Load(mem, ptr)
    requires pr' == pr.(nfree := pr.nfree - 1, offset := if fl >= PageAddr(pr)
                        then fl - PageAddr(pr) else INVALID_OFFSET)
    ensures chain != [] && ptr == chain[0] && ptr in BlocksOf(pr) && ptr !in live && pr.offset < PAGE_SIZE
    ensures fl == 0 <==> pr.nfree == 1
    ensures fl != 0 ==> PageAddr(pr) <= fl < PageAddr(pr) + PAGE_SIZE
    ensures PageOk(pr', mem, chain[1..], live + {ptr})
    ensures PageAddr(pr') == PageAddr(pr) && BlocksOf(pr') == BlocksOf(pr)
  {
    PopChain(mem, PageAddr(pr), BlockType(pr), pr.offset, pr.nfree, chain);
    assert chain == [chain[0]] + chain[1..];
    forall a | a in BlocksOf(pr')
      ensures a in live + {ptr} <==> a !in chain[1..]
    {
      assert a in chain <==> a == chain[0] || a in chain[1..];
    }
  }

  /** Memory differs at most inside the page of pr. */
  ghost predicate OnlyOnPage(pr: PageRef, mem: map<nat, nat>, mem': map<nat, nat>) {
    forall a: nat :: !(PageAddr(pr) <= a < PageAddr(pr) + PAGE_SIZE) ==> Load(mem', a) == Load(mem, a)
  }

  /** Changing one listed page, and live blocks and memory on no other page, keeps the pages. */
  lemma ChangeOnePage(refs: seq<PageRef>, pr': PageRef, mem: map<nat, nat>, mem': map<nat, nat>, all: seq<nat>,
                      chain: map<nat, seq<nat>>, c': seq<nat>, live: set<nat>, live': set<nat>, p: nat)
    requires PagesOk(refs, mem, all, chain, live) && p in all
    requires PageOk(pr', mem', c', live') && pr'.pab == refs[p].pab
    requires OnlyOnPage(pr', mem, mem')
    requires forall a :: a !in BlocksOf(pr') ==> (a in live' <==> a in live)
    ensures PagesOk(refs[p := pr'], mem', all, chain[p := c'], live')
  {
    var refs' := refs[p := pr'];
    hide PageOk, PageAddr, BlocksOf, Load, OnlyOnPage;
    SamePlace(refs[p], pr');
    forall q | q in all
      ensures q < TOTAL && PageOk(refs'[q], mem', chain[p := c'][q], live')
    {
      if q != p {
        OtherPage(refs[q], pr', mem, mem', chain[q], live, live');
      }
    }
    forall q, r | q in all && r in all && q != r
      ensures PageAddr(refs'[q]) != PageAddr(refs'[r])
    {
      assert PageAddr(refs[q]) != PageAddr(refs[r]);
    }
    forall a | a in live'
      ensures OnAPage(refs', all, a)
    {
      if a in BlocksOf(pr') {
        assert a in BlocksOf(refs'[p]);
      } else {
        assert OnAPage(refs, all, a);
        var q :| q in all && q < TOTAL && a in BlocksOf(refs[q]);
        assert a in BlocksOf(refs'[q]);
      }
    }
  }

  lemma SamePlace(pr: PageRef, pr': PageRef)
    requires pr.pab == pr'.pab
    ensures PageAddr(pr) == PageAddr(pr') && BlocksOf(pr) == BlocksOf(pr') && BlockType(pr) == BlockType(pr')
  {
  }

  lemma OtherPage(qr: PageRef, pr: PageRef, mem: map<nat, nat>, mem': map<nat, nat>, chain: seq<nat>,
                  live: set<nat>, live': set<nat>)
    requires PageOk(qr, mem, chain, live) && PageAddr(pr) != PageAddr(qr)
    requires OnlyOnPage(pr, mem, mem')
    requires forall a :: a !in BlocksOf(pr) ==> (a in live' <==> a in live)
    ensures PageOk(qr, mem', chain, live')
  {
    forall a | a in BlocksOf(qr)
      ensures a !in BlocksOf(pr) && !(PageAddr(pr) <= a < PageAddr(pr) + PAGE_SIZE)
    {
      PagesApart(qr, pr, a);
      BlockRange(qr, a);
      AddrAligned(pr);
      OnePage(PageAddr(qr), PageAddr(pr), a);
    }
    hide AllBlocks;
    PageFrame(qr, mem, mem', chain, live, live');
  }

  /** The block `ptr', in use, goes back in front of its page's freelist. */
  lemma PutBackOne(pr: PageRef, pr': PageRef, mem: map<nat, nat>, mem': map<nat, nat>, chain: seq<nat>, live: set<nat>,
                   ptr: nat)
    requires PageOk(pr, mem, chain, live) && ptr in BlocksOf(pr) && ptr !in chain
    requires forall x :: x in chain ==> Load(mem', x) == Load(mem, x)
    requires Load(mem', ptr) == if pr.offset == INVALID_OFFSET then 0 else PageAddr(pr) + pr.offset
    requires ptr >= PageAddr(pr) && pr' == pr.(nfree := pr.nfree + 1, offset := ptr - PageAddr(pr))
    ensures PageOk(pr', mem', [ptr] + chain, live - {ptr})
    ensures pr.nfree + 1 <= CountOf(BlockType(pr))
  {
    PushChain(mem, mem', PageAddr(pr), BlockType(pr), pr.offset, pr.nfree, chain, ptr);
    SamePlace(pr, pr');
    forall a | a in BlocksOf(pr')
      ensures a in live - {ptr} <==> a !in [ptr] + chain
    {
      assert a in [ptr] + chain <==> a == ptr || a in chain;
    }
    FreelistBound(mem', PageAddr(pr'), BlockType(pr'), pr'.offset, pr'.nfree, [ptr] + chain);
  }

  /** A page whose blocks are all free has none handed out. */
  lemma WhollyFree(pr: PageRef, mem: map<nat, nat>, chain: seq<nat>, live: set<nat>)
    requires PageOk(pr, mem, chain, live) && pr.nfree == CountOf(BlockType(pr))
    ensures forall a :: a in BlocksOf(pr) ==> a !in live
  {
    FreelistBound(mem, PageAddr(pr), BlockType(pr), pr.offset, pr.nfree, chain);
    forall a | a in BlocksOf(pr)
      ensures a in chain
    {
      assert a in Elements(chain);
    }
  }

  /** The page fields of listed descriptors are all that matters. */
  lemma PagesFrame(refs: seq<PageRef>, refs': seq<PageRef>, mem: map<nat, nat>, all: seq<nat>,
                   chain: map<nat, seq<nat>>, live: set<nat>)
    requires PagesOk(refs, mem, all, chain, live) && |refs'| == TOTAL
    requires forall p :: p in all ==> refs'[p].pab == refs[p].pab && refs'[p].offset == refs[p].offset
                                      && refs'[p].nfree == refs[p].nfree
    ensures PagesOk(refs', mem, all, chain, live)
  {
    hide PageOk, PageAddr, BlocksOf, Load;
    forall p | p in all
      ensures PageOk(refs'[p], mem, chain[p], live) && PageAddr(refs'[p]) == PageAddr(refs[p])
              && BlocksOf(refs'[p]) == BlocksOf(refs[p])
    {
      SamePage(refs[p], refs'[p], mem, chain[p], live);
      SamePlace(refs[p], refs'[p]);
    }
    forall a | a in live
      ensures OnAPage(refs', all, a)
    {
      assert OnAPage(refs, all, a);
      var q :| q in all && q < TOTAL && a in BlocksOf(refs[q]);
      assert a in BlocksOf(refs'[q]);
    }
  }

  lemma SamePage(pr: PageRef, pr': PageRef, mem: map<nat, nat>, chain: seq<nat>, live: set<nat>)
    requires PageOk(pr, mem, chain, live)
    requires pr'.pab == pr.pab && pr'.offset == pr.offset && pr'.nfree == pr.nfree
    ensures PageOk(pr', mem, chain, live)
  {
    SamePlace(pr, pr');
  }

  /** A page leaves the lists once none of its blocks is handed out. */
  lemma DropPage(refs: seq<PageRef>, mem: map<nat, nat>, all: seq<nat>, chain: map<nat, seq<nat>>, live: set<nat>,
                 k: nat)
    requires PagesOk(refs, mem, all, chain, live) && k < |all| && Distinct(all)
    requires all[k] in all && forall a :: a in BlocksOf(refs[all[k]]) ==> a !in live
    ensures PagesOk(refs, mem, Without(all, k), chain, live)
  {
    hide PageOk, PageAddr, BlocksOf, Load;
    WithoutMembers(all, k);
    forall a | a in live
      ensures OnAPage(refs, Without(all, k), a)
    {
      assert OnAPage(refs, all, a);
      var q :| q in all && q < TOTAL && a in BlocksOf(refs[q]);
      assert q in Without(all, k);
    }
  }

  /** A fresh page joins the lists. */
  lemma JoinPage(refs: seq<PageRef>, pr': PageRef, mem: map<nat, nat>, mem': map<nat, nat>, all: seq<nat>,
                 chain: map<nat, seq<nat>>, c': seq<nat>, live: set<nat>, p: nat)
    requires PagesOk(refs, mem, all, chain, live) && p < TOTAL && p !in all
    requires PageOk(pr', mem', c', live)
    requires forall q :: q in all ==> PageAddr(refs[q]) != PageAddr(pr')
    requires OnlyOnPage(pr', mem, mem')
    ensures PagesOk(refs[p := pr'], mem', [p] + all, chain[p := c'], live)
  {
    var refs', all' := refs[p := pr'], [p] + all;
    hide PageOk, PageAddr, BlocksOf, Load, OnlyOnPage;
    forall q | q in all'
      ensures q < TOTAL && PageOk(refs'[q], mem', chain[p := c'][q], live)
    {
      if q != p {
        assert q in all;
        OtherPage(refs[q], pr', mem, mem', chain[q], live, live);
      }
    }
    forall a | a in live
      ensures OnAPage(refs', all', a)
    {
      assert OnAPage(refs, all, a);
      var q :| q in all && q < TOTAL && a in BlocksOf(refs[q]);
      assert q in all' && a in BlocksOf(refs'[q]);
    }
  }

  /** No block of a page at an address no listed page has is handed out. */
  lemma FreshPage(refs: seq<PageRef>, mem: map<nat, nat>, all: seq<nat>, chain: map<nat, seq<nat>>, live: set<nat>,
                  pr: PageRef)
    requires PagesOk(refs, mem, all, chain, live)
    requires forall q :: q in all ==> PageAddr(refs[q]) != PageAddr(pr)
    ensures forall a :: a in BlocksOf(pr) ==> a !in live
  {
    forall a | a in BlocksOf(pr) && a in live
      ensures false
    {
      assert OnAPage(refs, all, a);
      var q :| q in all && q < TOTAL && a in BlocksOf(refs[q]);
      PagesApart(refs[q], pr, a);
    }
  }

  /** The freelist a new page starts with: all its blocks, last one first. */
  ghost function FreshChain(page: nat, b: blocktype, n: nat): seq<nat> {
    if n == 0 then [] else [BlockAt(page, b, n - 1)] + FreshChain(page, b, n - 1)
  }

  lemma PrependDistinct(x: nat, s: seq<nat>)
    requires Distinct(s) && x !in Elements(s)
    ensures Distinct([x] + s) && Elements([x] + s) == Elements(s) + {x}
  {
    assert forall y :: y in [x] + s <==> y == x || y in s;
  }

  lemma {:induction false} FreshChainIs(page: nat, b: blocktype, n: nat)
    ensures |FreshChain(page, b, n)| == n
    ensures Elements(FreshChain(page, b, n)) == Blocks(page, b, n)
    ensures Distinct(FreshChain(page, b, n))
  {
    hide BlockAt;
    if n > 0 {
      FreshChainIs(page, b, n - 1);
      NextBlockIsNew(page, b, n - 1);
      PrependDistinct(BlockAt(page, b, n - 1), FreshChain(page, b, n - 1));
    }
  }

  // ----- the bitmap

  /** Descriptors in use have their bit set, and numinuse counts the bits. */
  ghost predicate BitsOk(inuse: seq<seq<bool>>, numinuse: seq<nat>, rootPage: seq<nat>, all: seq<nat>,
                         claimed: set<nat>) {
    && |inuse| == |numinuse| == |rootPage| == NROOTS
    && (forall r :: 0 <= r < NROOTS ==> |inuse[r]| == PER_PAGE && numinuse[r] == CountTrue(inuse[r]))
    && (forall p :: p in all || p in claimed ==> p < TOTAL && inuse[p / PER_PAGE][p % PER_PAGE])
    && (forall p :: p in all ==> p !in claimed && rootPage[p / PER_PAGE] != 0)
  }

  lemma SetBit(inuse: seq<seq<bool>>, numinuse: seq<nat>, rootPage: seq<nat>, all: seq<nat>, claimed: set<nat>, r: nat,
               k: nat)
    requires BitsOk(inuse, numinuse, rootPage, all, claimed) && r < NROOTS && k < PER_PAGE && !inuse[r][k]
    ensures BitsOk(inuse[r := inuse[r][k := true]], numinuse[r := numinuse[r] + 1], rootPage, all,
                   claimed + {r * PER_PAGE + k})
    ensures r * PER_PAGE + k !in claimed && r * PER_PAGE + k !in all
  {
    CountFlip(inuse[r], k);
    assert (r * PER_PAGE + k) / PER_PAGE == r && (r * PER_PAGE + k) % PER_PAGE == k;
  }

  lemma ClearBit(inuse: seq<seq<bool>>, numinuse: seq<nat>, rootPage: seq<nat>, all: seq<nat>, claimed: set<nat>,
                 p: nat)
    requires BitsOk(inuse, numinuse, rootPage, all, claimed)
    requires p < TOTAL && p !in all && p !in claimed && inuse[p / PER_PAGE][p % PER_PAGE]
    ensures numinuse[p / PER_PAGE] > 0
    ensures BitsOk(inuse[p / PER_PAGE := inuse[p / PER_PAGE][p % PER_PAGE := false]],
                   numinuse[p / PER_PAGE := numinuse[p / PER_PAGE] - 1], rootPage, all, claimed)
  {
    CountFlip(inuse[p / PER_PAGE], p % PER_PAGE);
    forall q | q in all || q in claimed
      ensures q / PER_PAGE == p / PER_PAGE ==> q % PER_PAGE != p % PER_PAGE
    {
      assert q == q / PER_PAGE * PER_PAGE + q % PER_PAGE && p == p / PER_PAGE * PER_PAGE + p % PER_PAGE;
    }
  }

  // ----- pages in the hands of threads

  /** Pages a thread holds in a window are in nobody else's hands. */
  ghost predicate HeldOk(refs: seq<PageRef>, all: seq<nat>, held: set<nat>) {
    && |refs| == TOTAL
    && (forall g :: g in held ==> 0 < g && g % PAGE_SIZE == 0 && g + PAGE_SIZE <= 0x1_0000_0000)
    && (forall p :: p in all && p < TOTAL ==> PageAddr(refs[p]) !in held)
  }

  lemma HeldFrame(refs: seq<PageRef>, refs': seq<PageRef>, all: seq<nat>, held: set<nat>)
    requires HeldOk(refs, all, held) && |refs'| == |refs|
    requires forall p :: 0 <= p < |refs| ==> refs'[p].pab == refs[p].pab
    ensures HeldOk(refs', all, held)
  {
    forall p | p in all && p < TOTAL
      ensures PageAddr(refs'[p]) !in held
    {
      SamePlace(refs[p], refs'[p]);
    }
  }

  /** The addresses of the pages on the lists. */
  ghost function ListedPages(refs: seq<PageRef>, all: seq<nat>): set<nat> {
    set p | p in all && p < |refs| :: PageAddr(refs[p])
  }

  lemma ListedFrame(refs: seq<PageRef>, refs': seq<PageRef>, all: seq<nat>)
    requires |refs'| == |refs| && forall q :: 0 <= q < |refs| && q in all ==> refs'[q].pab == refs[q].pab
    ensures ListedPages(refs', all) == ListedPages(refs, all)
  {
    forall q | q in all && q < |refs|
      ensures PageAddr(refs'[q]) == PageAddr(refs[q])
    {
      SamePlace(refs[q], refs'[q]);
    }
    hide PageAddr;
    forall a
      ensures a in ListedPages(refs', all) <==> a in ListedPages(refs, all)
    {
      if a in ListedPages(refs, all) {
        var q :| q in all && q < |refs| && a == PageAddr(refs[q]);
        assert a == PageAddr(refs'[q]);
      }
    }
  }

  lemma ListedPush(refs: seq<PageRef>, all: seq<nat>, p: nat, pr: PageRef)
    requires p < |refs| && p !in all
    ensures ListedPages(refs[p := pr], [p] + all) == ListedPages(refs, all) + {PageAddr(pr)}
  {
    hide PageAddr;
    var refs', all' := refs[p := pr], [p] + all;
    forall a
      ensures a in ListedPages(refs', all') <==> a in ListedPages(refs, all) || a == PageAddr(pr)
    {
      if a == PageAddr(pr) {
        assert p in all' && a == PageAddr(refs'[p]);
      }
      if a in ListedPages(refs, all) {
        var q :| q in all && q < |refs| && a == PageAddr(refs[q]);
        assert q in all' && a == PageAddr(refs'[q]);
      }
    }
  }

  lemma ListedDrop(refs: seq<PageRef>, mem: map<nat, nat>, all: seq<nat>, all': seq<nat>, chain: map<nat, seq<nat>>,
                   live: set<nat>, p: nat)
    requires PagesOk(refs, mem, all, chain, live) && p in all && forall q :: q in all' <==> q in all && q != p
    ensures ListedPages(refs, all') == ListedPages(refs, all) - {PageAddr(refs[p])}
    ensures PageAddr(refs[p]) in ListedPages(refs, all)
  {
    hide PageAddr, PageOk, OnAPage;
    forall a
      ensures a in ListedPages(refs, all') <==> a in ListedPages(refs, all) && a != PageAddr(refs[p])
    {
      if a in ListedPages(refs, all) && a != PageAddr(refs[p]) {
        var q :| q in all && q < |refs| && a == PageAddr(refs[q]);
        assert q in all';
      }
    }
  }

  // ----- the pages that hold descriptors

  /** Pages of descriptors are apart from each other, from heap pages and from pages threads hold. */
  ghost predicate RootsOk(refs: seq<PageRef>, rootPage: seq<nat>, all: seq<nat>, held: set<nat>) {
    && |refs| == TOTAL && |rootPage| == NROOTS
    && (forall r :: 0 <= r < NROOTS ==> rootPage[r] % PAGE_SIZE == 0 && rootPage[r] !in held)
    && (forall r, q :: 0 <= r < q < NROOTS && rootPage[r] != 0 ==> rootPage[r] != rootPage[q])
    && (forall r, p :: 0 <= r < NROOTS && p in all && p < TOTAL ==> PageAddr(refs[p]) != rootPage[r])
  }

  lemma RootsFrame(refs: seq<PageRef>, refs': seq<PageRef>, rootPage: seq<nat>, all: seq<nat>, held: set<nat>)
    requires RootsOk(refs, rootPage, all, held) && |refs'| == |refs|
    requires forall p :: 0 <= p < |refs| ==> refs'[p].pab == refs[p].pab
    ensures RootsOk(refs', rootPage, all, held)
  {
    forall p | p in all && p < TOTAL
      ensures PageAddr(refs'[p]) == PageAddr(refs[p])
    {
      SamePlace(refs[p], refs'[p]);
    }
  }

  /** A held page becomes a heap page. */
  lemma RootsUseHeld(refs: seq<PageRef>, pr: PageRef, rootPage: seq<nat>, all: seq<nat>, held: set<nat>, p: nat,
                     page: nat)
    requires RootsOk(refs, rootPage, all, held) && page in held && p < TOTAL && p !in all && PageAddr(pr) == page
    ensures RootsOk(refs[p := pr], rootPage, [p] + all, held - {page})
  {
  }

  /** A held page becomes a page of descriptors. */
  lemma RootsInstall(refs: seq<PageRef>, inuse: seq<seq<bool>>, numinuse: seq<nat>, rootPage: seq<nat>, all: seq<nat>,
                     claimed: set<nat>, held: set<nat>, r: nat, va: nat)
    requires RootsOk(refs, rootPage, all, held) && HeldOk(refs, all, held)
             && BitsOk(inuse, numinuse, rootPage, all, claimed)
    requires r < NROOTS && va in held
    ensures va != 0 && RootsOk(refs, rootPage[r := va], all, held - {va}) && HeldOk(refs, all, held - {va})
    ensures BitsOk(inuse, numinuse, rootPage[r := va], all, claimed)
  {
  }

  // ----- no wholly free page stays listed

  predicate NotWhollyFree(pr: PageRef) {
    BlockType(pr) < NSIZES && pr.nfree < CountOf(BlockType(pr))
  }

  ghost predicate NoneWhollyFree(refs: seq<PageRef>, all: seq<nat>) {
    forall p :: p in all ==> p < |refs| && NotWhollyFree(refs[p])
  }

  lemma InPool(refs: seq<PageRef>, mem: map<nat, nat>, all: seq<nat>, chain: map<nat, seq<nat>>, live: set<nat>, p: nat)
    requires PagesOk(refs, mem, all, chain, live) && p in all
    ensures |refs| == TOTAL && p < TOTAL && p in chain && PageOk(refs[p], mem, chain[p], live)
    ensures BlockType(refs[p]) < NSIZES == 8 && 0 < PageAddr(refs[p]) && |chain[p]| == refs[p].nfree
    ensures refs[p].nfree <= CountOf(BlockType(refs[p]))
  {
    var pr := refs[p];
    FreelistBound(mem, PageAddr(pr), BlockType(pr), pr.offset, pr.nfree, chain[p]);
  }

  lemma OneNotFull(pr: PageRef, nfree: nat, offset: nat)
    requires BlockType(pr) < NSIZES && nfree < CountOf(BlockType(pr))
    ensures NotWhollyFree(pr.(nfree := nfree, offset := offset))
  {
  }

  /** No page of block type b has a free block. */
  ghost predicate TypeFull(refs: seq<PageRef>, all: seq<nat>, b: nat) {
    forall q :: q in all && q < |refs| && BlockType(refs[q]) == b ==> refs[q].nfree == 0
  }

  // ----- a new page

  /** One turn of the loop that strings the blocks of a new page together. */
  lemma FreshStep(mem: map<nat, nat>, page: nat, b: blocktype, i: nat)
    requires page > 0 && IsChain(mem, FreshChain(page, b, i))
    ensures var mem' := mem[BlockAt(page, b, i) := if i == 0 then 0 else BlockAt(page, b, i - 1)];
            && IsChain(mem', FreshChain(page, b, i + 1))
            && forall a :: a !in Blocks(page, b, i + 1) ==> Load(mem', a) == Load(mem, a)
  {
    var x := BlockAt(page, b, i);
    var mem' := mem[x := if i == 0 then 0 else BlockAt(page, b, i - 1)];
    var c, c' := FreshChain(page, b, i), FreshChain(page, b, i + 1);
    assert c' == [x] + c;
    FreshChainIs(page, b, i);
    NextBlockIsNew(page, b, i);
    assert i > 0 ==> c[0] == BlockAt(page, b, i - 1);
    hide BlockAt;
    forall k | 0 <= k < |c'|
      ensures Load(mem', c'[k]) == At(c', k + 1)
    {
      if k > 0 {
        assert c'[k] == c[k - 1] && c[k - 1] in Elements(c) && At(c', k + 1) == At(c, k);
      }
    }
  }

  /** The page as the loop leaves it: every block free, the last one first. */
  lemma FreshPageOk(pr: PageRef, mem: map<nat, nat>, live: set<nat>, page: nat, b: blocktype)
    requires page % PAGE_SIZE == 0 && 0 < page && page + PAGE_SIZE <= 0x1_0000_0000
    requires pr.pab == MkPab(page, b) && pr.nfree == CountOf(b) && pr.offset == (CountOf(b) - 1) * SizeOf(b)
    requires IsChain(mem, FreshChain(page, b, CountOf(b)))
    requires forall a :: a in BlocksOf(pr) ==> a !in live
    ensures PageOk(pr, mem, FreshChain(page, b, CountOf(b)), live)
    ensures pr.nfree > 0 && PageAddr(pr) == page && BlockType(pr) == b
  {
    var c := FreshChain(page, b, CountOf(b));
    PackedWord(page, b, pr);
    SizeTable(b);
    FreshChainIs(page, b, CountOf(b));
    LastBlock(b);
    assert c[0] == BlockAt(page, b, CountOf(b) - 1);
    hide PageAddr, BlockType, SizeOf, CountOf;
    forall a | a in BlocksOf(pr)
      ensures a in c
    {
      assert a in Elements(c);
    }
  }

  lemma LastBlock(b: blocktype)
    ensures 0 <= (CountOf(b) - 1) * SizeOf(b) < PAGE_SIZE
    ensures CountOf(b) > 0
  {
    SizeTable(b);
    Apart(CountOf(b) - 1, CountOf(b), SizeOf(b));
  }

  lemma UseClaim(inuse: seq<seq<bool>>, numinuse: seq<nat>, rootPage: seq<nat>, all: seq<nat>, claimed: set<nat>,
                 p: nat)
    requires BitsOk(inuse, numinuse, rootPage, all, claimed) && p in claimed && rootPage[p / PER_PAGE] != 0
    ensures BitsOk(inuse, numinuse, rootPage, [p] + all, claimed - {p}) && p < TOTAL && p !in all
  {
  }

  lemma UseHeld(refs: seq<PageRef>, pr: PageRef, all: seq<nat>, held: set<nat>, p: nat, page: nat)
    requires HeldOk(refs, all, held) && page in held && p < TOTAL && p !in all && PageAddr(pr) == page
    ensures HeldOk(refs[p := pr], [p] + all, held - {page})
    ensures 0 < page && page % PAGE_SIZE == 0 && page + PAGE_SIZE <= 0x1_0000_0000
    ensures forall q :: q in all && q < TOTAL ==> PageAddr(refs[q]) != page
  {
  }
}
