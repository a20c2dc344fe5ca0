/** Pages cut into equal blocks, and the freelist threaded through the free ones. */
module Freelist {
  import opened Sequences
  import opened Products

  const PAGE_SIZE: nat := 4096
  const NSIZES: nat := 8
  const INVALID_OFFSET: nat := 0xffff

  type blocktype = b: nat | b < 8

  /** The sizes[] table. */
  function SizeOf(b: blocktype): (s: nat)
    ensures s > 0
  {
    [16, 32, 64, 128, 256, 512, 1024, 2048][b]
  }

  /** PAGE_SIZE / sizes[b] */
  function CountOf(b: blocktype): nat {
    PAGE_SIZE / SizeOf(b)
  }

  lemma SizeTable(b: blocktype)
    ensures CountOf(b) * SizeOf(b) == PAGE_SIZE
    ensures 16 <= SizeOf(b) <= 2048 && 2 <= CountOf(b) <= 256
    ensures SizeOf(b) == 16 || SizeOf(b) == 32 || SizeOf(b) == 64 || SizeOf(b) == 128
         || SizeOf(b) == 256 || SizeOf(b) == 512 || SizeOf(b) == 1024 || SizeOf(b) == 2048
  {
  }

  function Pow2(n: nat): nat {
    if n == 0 then 1 else 2 * Pow2(n - 1)
  }

  /** The sizes are the powers of two from 16 to half a page. */
  lemma SizesArePowers(b: blocktype)
    ensures SizeOf(b) == Pow2(b + 4) && SizeOf(7) == PAGE_SIZE / 2
  {
    assert Pow2(4) == 16 && Pow2(5) == 32 && Pow2(6) == 64 && Pow2(7) == 128;
    assert Pow2(8) == 256 && Pow2(9) == 512 && Pow2(10) == 1024 && Pow2(11) == 2048;
  }

  /** Address of block k of a page. */
  function BlockAt(page: nat, b: blocktype, k: nat): nat {
    page + k * SizeOf(b)
  }

  /** The addresses of the first n blocks of a page. */
  ghost function Blocks(page: nat, b: blocktype, n: nat): set<nat> {
    if n == 0 then {} else Blocks(page, b, n - 1) + {BlockAt(page, b, n - 1)}
  }

  ghost function AllBlocks(page: nat, b: blocktype): set<nat> {
    Blocks(page, b, CountOf(b))
  }

  lemma {:induction false} BlocksCount(page: nat, b: blocktype, n: nat)
    ensures |Blocks(page, b, n)| == n
    ensures forall a :: a in Blocks(page, b, n) ==> page <= a && a + SizeOf(b) <= page + n * SizeOf(b)
  {
    if n > 0 {
      BlocksCount(page, b, n - 1);
      assert n * SizeOf(b) == (n - 1) * SizeOf(b) + SizeOf(b);
    }
  }

  lemma NextBlockIsNew(page: nat, b: blocktype, n: nat)
    ensures BlockAt(page, b, n) !in Blocks(page, b, n)
  {
    BlocksCount(page, b, n);
  }

  lemma {:induction false} BlockInPage(page: nat, b: blocktype, n: nat, k: nat)
    requires k < n
    ensures BlockAt(page, b, k) in Blocks(page, b, n)
  {
    if k < n - 1 {
      BlockInPage(page, b, n - 1, k);
    }
  }

  lemma {:induction false} BlockIndex(page: nat, b: blocktype, n: nat, a: nat) returns (k: nat)
    requires a in Blocks(page, b, n)
    ensures k < n && a == BlockAt(page, b, k)
  {
    if a == BlockAt(page, b, n - 1) {
      k := n - 1;
    } else {
      k := BlockIndex(page, b, n - 1, a);
    }
  }

  /** The alignment test of subpage_kfree accepts exactly the blocks of the page. */
  lemma AlignedIsBlock(page: nat, b: blocktype, offset: nat)
    requires offset < PAGE_SIZE
    ensures offset % SizeOf(b) == 0 <==> page + offset in AllBlocks(page, b)
  {
    if offset % SizeOf(b) == 0 {
      var k := WholeBlocks(b, offset);
      BlockInPage(page, b, CountOf(b), k);
    }
    if page + offset in AllBlocks(page, b) {
      var k := BlockIndex(page, b, CountOf(b), page + offset);
      WholeOffset(b, offset, k);
    }
  }

  lemma WholeBlocks(b: blocktype, offset: nat) returns (k: nat)
    requires offset < PAGE_SIZE && offset % SizeOf(b) == 0
    ensures k < CountOf(b) && offset == k * SizeOf(b)
  {
    SizeTable(b);
    k := offset / SizeOf(b);
    if k >= CountOf(b) {
      Apart(CountOf(b), k, SizeOf(b));
      assert false;
    }
  }

  lemma WholeOffset(b: blocktype, offset: nat, k: nat)
    requires offset == k * SizeOf(b)
    ensures offset % SizeOf(b) == 0
  {
    UniqueQuotient(offset, SizeOf(b), k, 0);
  }

  /** Two different blocks of a page do not overlap, and each lies inside the page. */
  lemma BlocksApart(page: nat, b: blocktype, x: nat, y: nat)
    requires x in AllBlocks(page, b) && y in AllBlocks(page, b)
    ensures page <= x && x + SizeOf(b) <= page + PAGE_SIZE
    ensures x != y ==> x + SizeOf(b) <= y || y + SizeOf(b) <= x
  {
    SizeTable(b);
    BlocksCount(page, b, CountOf(b));
    var i := BlockIndex(page, b, CountOf(b), x);
    var j := BlockIndex(page, b, CountOf(b), y);
    Apart(i, j, SizeOf(b));
  }

  lemma Apart(i: nat, j: nat, s: nat)
    ensures i < j ==> i * s + s <= j * s
    ensures j < i ==> j * s + s <= i * s
  {
    if i < j {
      Steps(i, j, s);
    } else if j < i {
      Steps(j, i, s);
    }
  }

  lemma {:induction false} Steps(i: nat, j: nat, s: nat)
    requires i < j
    ensures i * s + s <= j * s
  {
    if i + 1 < j {
      Steps(i, j - 1, s);
    }
    assert j * s == (j - 1) * s + s;
  }

  // ----- the freelist

  ghost function Elements<T>(s: seq<T>): set<T> {
    set x | x in s
  }

  lemma {:induction false} DistinctCount<T>(s: seq<T>)
    requires Distinct(s)
    ensures |Elements(s)| == |s|
  {
    if s != [] {
      DistinctCount(s[1..]);
      assert Elements(s) == Elements(s[1..]) + {s[0]};
    }
  }

  /** What a load of the first word of a block gives. */
  function Load(mem: map<nat, nat>, a: nat): nat {
    if a in mem then mem[a] else 0
  }

  function At(s: seq<nat>, i: nat): nat {
    if i < |s| then s[i] else 0
  }

  /** Following next pointers from the head visits exactly `chain' and then finds NULL. */
  ghost predicate IsChain(mem: map<nat, nat>, chain: seq<nat>) {
    forall i :: 0 <= i < |chain| ==> Load(mem, chain[i]) == At(chain, i + 1)
  }

  /** The freelist of a page: inside it, on block boundaries, acyclic, and counted by nfree. */
  ghost predicate IsFreelist(mem: map<nat, nat>, page: nat, b: blocktype, offset: nat, nfree: nat, chain: seq<nat>) {
    && |chain| == nfree
    && (nfree == 0 <==> offset == INVALID_OFFSET)
    && (nfree > 0 ==> offset < PAGE_SIZE && page + offset == chain[0])
    && Elements(chain) <= AllBlocks(page, b)
    && Distinct(chain)
    && IsChain(mem, chain)
  }

  /** There is a freelist at all from that offset, as long as that count says. */
  ghost predicate HasFreelist(mem: map<nat, nat>, page: nat, b: blocktype, offset: nat, nfree: nat) {
    exists chain :: IsFreelist(mem, page, b, offset, nfree, chain)
  }

  /** A freelist never holds more than the page's blocks; holding that many, it holds them all. */
  lemma FreelistBound(mem: map<nat, nat>, page: nat, b: blocktype, offset: nat, nfree: nat, chain: seq<nat>)
    requires IsFreelist(mem, page, b, offset, nfree, chain)
    ensures nfree <= CountOf(b)
    ensures nfree == CountOf(b) ==> Elements(chain) == AllBlocks(page, b)
    ensures |AllBlocks(page, b) - Elements(chain)| == CountOf(b) - nfree
  {
    DistinctCount(chain);
    BlocksCount(page, b, CountOf(b));
    SubsetCount(Elements(chain), AllBlocks(page, b));
    assert AllBlocks(page, b) == Elements(chain) + (AllBlocks(page, b) - Elements(chain));
  }

  /** Taking the head, as the `doalloc' code does. */
  lemma PopChain(mem: map<nat, nat>, page: nat, b: blocktype, offset: nat, nfree: nat, chain: seq<nat>)
    requires IsFreelist(mem, page, b, offset, nfree, chain) && nfree > 0 && page > 0
    ensures var fl := Load(mem, page + offset);
            && (fl == 0 <==> nfree == 1)
            && (fl != 0 ==> page <= fl < page + PAGE_SIZE)
            && IsFreelist(mem, page, b, if fl == 0 then INVALID_OFFSET else fl - page, nfree - 1, chain[1..])
    ensures chain[0] !in chain[1..] && page + offset in AllBlocks(page, b)
  {
    var rest := chain[1..];
    var fl := Load(mem, page + offset);
    assert fl == At(chain, 1);
    SizeTable(b);
    BlocksCount(page, b, CountOf(b));
    forall i | 0 <= i < |rest|
      ensures Load(mem, rest[i]) == At(rest, i + 1)
    {
      assert rest[i] == chain[i + 1] && At(rest, i + 1) == At(chain, i + 2);
    }
    assert chain[0] in Elements(chain);
    if |chain| > 1 {
      assert chain[1] in Elements(chain);
    }
    forall x | x in Elements(rest)
      ensures x in Elements(chain)
    {
    }
  }

  /** Putting a block back in front, as subpage_kfree does. */
  lemma PushChain(mem: map<nat, nat>, mem': map<nat, nat>, page: nat, b: blocktype, offset: nat, nfree: nat,
                  chain: seq<nat>, a: nat)
    requires IsFreelist(mem, page, b, offset, nfree, chain) && page > 0
    requires a in AllBlocks(page, b) && a !in chain
    requires Load(mem', a) == if offset == INVALID_OFFSET then 0 else page + offset
    requires forall x :: x in chain ==> Load(mem', x) == Load(mem, x)
    ensures a >= page && IsFreelist(mem', page, b, a - page, nfree + 1, [a] + chain)
  {
    var c := [a] + chain;
    SizeTable(b);
    BlocksCount(page, b, CountOf(b));
    assert forall i :: 1 <= i < |c| ==> c[i] == chain[i - 1] && At(c, i + 1) == At(chain, i);
    forall x | x in Elements(c)
      ensures x in AllBlocks(page, b)
    {
      if x != a {
        assert x in Elements(chain);
      }
    }
  }

  /** Putting back a block that is free already: from the second link on the list runs as before, so it
      comes to the block again, and is no freelist. */
  lemma PushTwice(mem: map<nat, nat>, mem': map<nat, nat>, page: nat, b: blocktype, offset: nat, nfree: nat,
                  chain: seq<nat>, k: nat, c: seq<nat>)
    requires IsFreelist(mem, page, b, offset, nfree, chain) && k < |chain| && page <= chain[k]
    requires Load(mem', chain[k]) == page + offset
    requires forall x :: x in chain && x != chain[k] ==> Load(mem', x) == Load(mem, x)
    ensures !IsFreelist(mem', page, b, chain[k] - page, nfree + 1, c)
  {
    if IsFreelist(mem', page, b, chain[k] - page, nfree + 1, c) {
      SameLinks(mem, mem', chain, k, c, k);
      assert false;
    }
  }

  lemma {:induction false} SameLinks(mem: map<nat, nat>, mem': map<nat, nat>, chain: seq<nat>, k: nat, c: seq<nat>,
                                     i: nat)
    requires IsChain(mem, chain) && IsChain(mem', c) && Distinct(chain) && i <= k < |chain| && |c| == |chain| + 1
    requires c[0] == chain[k] && Load(mem', chain[k]) == chain[0]
    requires forall x :: x in chain && x != chain[k] ==> Load(mem', x) == Load(mem, x)
    ensures c[i + 1] == chain[i]
  {
    if i == 0 {
      assert At(c, 1) == c[1];
    } else {
      SameLinks(mem, mem', chain, k, c, i - 1);
      assert chain[i - 1] in chain && chain[i - 1] != chain[k];
      assert Load(mem, chain[i - 1]) == At(chain, i) && Load(mem', c[i]) == At(c, i + 1);
    }
  }

  /** After the stores of subpage_kfree the page has a freelist exactly when the block was not free. */
  lemma PushedIffLive(mem: map<nat, nat>, mem': map<nat, nat>, page: nat, b: blocktype, offset: nat, nfree: nat,
                      chain: seq<nat>, a: nat)
    requires IsFreelist(mem, page, b, offset, nfree, chain) && page > 0 && a in AllBlocks(page, b)
    requires Load(mem', a) == if offset == INVALID_OFFSET then 0 else page + offset
    requires forall x :: x in chain && x != a ==> Load(mem', x) == Load(mem, x)
    ensures a >= page
    ensures HasFreelist(mem', page, b, a - page, nfree + 1) <==> a !in chain
  {
    BlocksCount(page, b, CountOf(b));
    if a in chain {
      var k :| 0 <= k < |chain| && chain[k] == a;
      if HasFreelist(mem', page, b, a - page, nfree + 1) {
        var c :| IsFreelist(mem', page, b, a - page, nfree + 1, c);
        PushTwice(mem, mem', page, b, offset, nfree, chain, k, c);
      }
    } else {
      PushChain(mem, mem', page, b, offset, nfree, chain, a);
    }
  }
}
