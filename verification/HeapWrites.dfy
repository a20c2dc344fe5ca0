/** Which words a step of the allocator may write: never one of a block that somebody has. */
module HeapWrites {
  import opened Freelist
  import opened PageRefs
  import opened HeapInvariant

  ghost predicate WroteOnly(mem0: map<nat, nat>, mem: map<nat, nat>, from: nat, n: nat) {
    forall a: nat :: !(from <= a < from + n) ==> Load(mem, a) == Load(mem0, a)
  }

  /** Address a is in the block at x of the page. */
  predicate InBlock(pr: PageRef, x: nat, a: nat) {
    BlockType(pr) < NSIZES && x <= a < x + SizeOf(BlockType(pr))
  }

  /** The blocks in `kept' hold what they held. */
  ghost predicate Untouched(refs: seq<PageRef>, all: seq<nat>, kept: set<nat>, mem0: map<nat, nat>,
                            mem: map<nat, nat>) {
    forall q, x, a: nat :: q in all && q < |refs| && x in kept && x in BlocksOf(refs[q]) && InBlock(refs[q], x, a) ==>
      Load(mem, a) == Load(mem0, a)
  }

  lemma NothingWritten(refs: seq<PageRef>, all: seq<nat>, kept: set<nat>, mem: map<nat, nat>)
    ensures Untouched(refs, all, kept, mem, mem)
  {
  }

  lemma BlocksOfIs(pr: PageRef)
    requires BlockType(pr) < NSIZES
    ensures BlockType(pr) < 8 && BlocksOf(pr) == AllBlocks(PageAddr(pr), BlockType(pr))
  {
  }

  lemma DifferentPages(refs: seq<PageRef>, mem: map<nat, nat>, all: seq<nat>, chain: map<nat, seq<nat>>, live: set<nat>,
                       p: nat, q: nat)
    requires PagesOk(refs, mem, all, chain, live) && p in all && q in all && p != q
    ensures p < |refs| && q < |refs|
    ensures PageAddr(refs[p]) + PAGE_SIZE <= PageAddr(refs[q]) || PageAddr(refs[q]) + PAGE_SIZE <= PageAddr(refs[p])
  {
    hide PageOk, PageAddr, OnAPage;
    AddrAligned(refs[p]);
    AddrAligned(refs[q]);
  }

  lemma BlockInside(pr: PageRef, x: nat)
    requires BlockType(pr) < NSIZES && x in BlocksOf(pr)
    ensures PageAddr(pr) <= x && x + SizeOf(BlockType(pr)) <= PageAddr(pr) + PAGE_SIZE
  {
    BlocksOfIs(pr);
    BlocksApart(PageAddr(pr), BlockType(pr), x, x);
  }

  /** A page that a thread holds has no block of anybody. */
  lemma NewPageOnly(refs: seq<PageRef>, all: seq<nat>, held: set<nat>, page: nat, kept: set<nat>, mem0: map<nat, nat>,
                    mem: map<nat, nat>)
    requires HeldOk(refs, all, held) && page in held && WroteOnly(mem0, mem, page, PAGE_SIZE)
    ensures Untouched(refs, all, kept, mem0, mem)
  {
    forall q, x, a: nat | q in all && q < |refs| && x in kept && x in BlocksOf(refs[q]) && InBlock(refs[q], x, a)
      ensures Load(mem, a) == Load(mem0, a)
    {
      assert PageAddr(refs[q]) != page && page % PAGE_SIZE == 0;
      hide *;
      NotThere(refs[q], x, a, page);
      Elsewhere(mem0, mem, page, PAGE_SIZE, a);
    }
  }

  lemma NotThere(pr: PageRef, x: nat, a: nat, page: nat)
    requires x in BlocksOf(pr) && InBlock(pr, x, a) && page % PAGE_SIZE == 0 && PageAddr(pr) != page
    ensures !(page <= a < page + PAGE_SIZE)
  {
    hide PageAddr, BlocksOf, SizeOf;
    BlockInside(pr, x);
    AddrAligned(pr);
    OnePage(PageAddr(pr), page, a);
  }

  lemma Elsewhere(mem0: map<nat, nat>, mem: map<nat, nat>, from: nat, n: nat, a: nat)
    requires WroteOnly(mem0, mem, from, n) && !(from <= a < from + n)
    ensures Load(mem, a) == Load(mem0, a)
  {
  }

  /** A block that is freed shares no word with another. */
  lemma FreedOnly(refs: seq<PageRef>, all: seq<nat>, chain: map<nat, seq<nat>>, live: set<nat>, p: nat, ptr: nat,
                  kept: set<nat>, mem0: map<nat, nat>, mem: map<nat, nat>)
    requires PagesOk(refs, mem0, all, chain, live) && p in all && p < |refs| && BlockType(refs[p]) < NSIZES
    requires ptr in BlocksOf(refs[p]) && ptr !in kept && WroteOnly(mem0, mem, ptr, SizeOf(BlockType(refs[p])))
    ensures Untouched(refs, all, kept, mem0, mem)
  {
    forall q, x, a: nat | q in all && q < |refs| && x in kept && x in BlocksOf(refs[q]) && InBlock(refs[q], x, a)
      ensures Load(mem, a) == Load(mem0, a)
    {
      hide *;
      BlockAway(refs, mem0, all, chain, live, p, ptr, q, x, a);
      Elsewhere(mem0, mem, ptr, SizeOf(BlockType(refs[p])), a);
    }
  }

  lemma BlockAway(refs: seq<PageRef>, mem: map<nat, nat>, all: seq<nat>, chain: map<nat, seq<nat>>, live: set<nat>,
                  p: nat, ptr: nat, q: nat, x: nat, a: nat)
    requires PagesOk(refs, mem, all, chain, live) && p in all && q in all && p < |refs| && q < |refs|
    requires BlockType(refs[p]) < NSIZES && ptr in BlocksOf(refs[p])
    requires x in BlocksOf(refs[q]) && x != ptr && InBlock(refs[q], x, a)
    ensures !(ptr <= a < ptr + SizeOf(BlockType(refs[p])))
  {
    hide PagesOk, BlocksOf, BlockType, PageAddr, SizeOf, AllBlocks;
    BlockInside(refs[p], ptr);
    BlockInside(refs[q], x);
    if p == q {
      BlocksOfIs(refs[p]);
      BlocksApart(PageAddr(refs[p]), BlockType(refs[p]), ptr, x);
    } else {
      DifferentPages(refs, mem, all, chain, live, p, q);
    }
  }

  // ----- blocks of whole pages

  /** The runs of pages in `kept' hold what they held. */
  ghost predicate RunsUntouched(runs: map<nat, nat>, kept: set<nat>, mem0: map<nat, nat>, mem: map<nat, nat>) {
    forall u, a: nat :: u in kept && u in runs && u <= a < u + runs[u] * PAGE_SIZE ==> Load(mem, a) == Load(mem0, a)
  }

  lemma NoRunWritten(runs: map<nat, nat>, kept: set<nat>, mem: map<nat, nat>)
    ensures RunsUntouched(runs, kept, mem, mem)
  {
  }

  /** What is written on a page that no run has leaves the runs as they are. */
  lemma RunsAway(runs: map<nat, nat>, kept: set<nat>, page: nat, from: nat, n: nat, mem0: map<nat, nat>,
                 mem: map<nat, nat>)
    requires forall u :: u in runs ==> page + PAGE_SIZE <= u || u + runs[u] * PAGE_SIZE <= page
    requires page <= from && from + n <= page + PAGE_SIZE && WroteOnly(mem0, mem, from, n)
    ensures RunsUntouched(runs, kept, mem0, mem)
  {
    forall u, a: nat | u in kept && u in runs && u <= a < u + runs[u] * PAGE_SIZE
      ensures Load(mem, a) == Load(mem0, a)
    {
      Elsewhere(mem0, mem, from, n, a);
    }
  }
}
