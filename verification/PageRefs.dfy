/** The page descriptors of the kernel heap: the two singly linked lists they are on, and the
    bitmap they are allocated from. */
module PageRefs {
  import opened Sequences
  import opened Freelist

  const NIL: int := -1
  const PER_PAGE: nat := 256
  const NROOTS: nat := 16
  const TOTAL: nat := 4096

  /** struct pageref. Pointers to descriptors are indices into the pool, NIL for NULL. */
  datatype PageRef = PageRef(nextSame: int, nextAll: int, pab: nat, offset: nat, nfree: nat)

  /** MKPAB, PR_PAGEADDR and PR_BLOCKTYPE: a page address and a block type share one word. */
  function MkPab(page: nat, b: nat): nat {
    page - page % PAGE_SIZE + b % PAGE_SIZE
  }

  function PageAddr(pr: PageRef): nat {
    pr.pab - pr.pab % PAGE_SIZE
  }

  function BlockType(pr: PageRef): nat {
    pr.pab % PAGE_SIZE
  }

  lemma PackedWord(page: nat, b: blocktype, pr: PageRef)
    requires page % PAGE_SIZE == 0 && pr.pab == MkPab(page, b)
    ensures PageAddr(pr) == page && BlockType(pr) == b
  {
  }

  // ----- the lists

  /** The i-th descriptor of a list, or NIL outside it. */
  function Link(list: seq<nat>, i: int): int {
    if 0 <= i < |list| then list[i] else NIL
  }

  ghost predicate LinkedAll(refs: seq<PageRef>, head: int, list: seq<nat>) {
    && head == Link(list, 0)
    && forall i :: 0 <= i < |list| ==> list[i] < |refs| && refs[list[i]].nextAll == Link(list, i + 1)
  }

  ghost predicate LinkedSame(refs: seq<PageRef>, head: int, list: seq<nat>) {
    && head == Link(list, 0)
    && forall i :: 0 <= i < |list| ==> list[i] < |refs| && refs[list[i]].nextSame == Link(list, i + 1)
  }

  lemma LinkedAllFrame(refs: seq<PageRef>, refs': seq<PageRef>, head: int, list: seq<nat>)
    requires LinkedAll(refs, head, list) && |refs'| == |refs|
    requires forall p :: p in list ==> refs'[p].nextAll == refs[p].nextAll
    ensures LinkedAll(refs', head, list)
  {
    assert forall i :: 0 <= i < |list| ==> list[i] in list;
  }

  lemma LinkedSameFrame(refs: seq<PageRef>, refs': seq<PageRef>, head: int, list: seq<nat>)
    requires LinkedSame(refs, head, list) && |refs'| == |refs|
    requires forall p :: p in list ==> refs'[p].nextSame == refs[p].nextSame
    ensures LinkedSame(refs', head, list)
  {
    assert forall i :: 0 <= i < |list| ==> list[i] in list;
  }

  lemma PushAll(refs: seq<PageRef>, head: int, list: seq<nat>, p: nat, pr: PageRef)
    requires LinkedAll(refs, head, list) && Distinct(list) && p < |refs| && p !in list && pr.nextAll == head
    ensures LinkedAll(refs[p := pr], p, [p] + list) && Distinct([p] + list)
  {
    LinkedAllFrame(refs, refs[p := pr], head, list);
  }

  lemma PushSame(refs: seq<PageRef>, head: int, list: seq<nat>, p: nat, pr: PageRef)
    requires LinkedSame(refs, head, list) && Distinct(list) && p < |refs| && p !in list && pr.nextSame == head
    ensures LinkedSame(refs[p := pr], p, [p] + list) && Distinct([p] + list)
  {
    LinkedSameFrame(refs, refs[p := pr], head, list);
  }

  function Without(list: seq<nat>, k: nat): seq<nat>
    requires k < |list|
  {
    list[..k] + list[k + 1..]
  }

  lemma WithoutMembers(list: seq<nat>, k: nat)
    requires k < |list| && Distinct(list)
    ensures Distinct(Without(list, k))
    ensures forall x :: x in Without(list, k) <==> x in list && x != list[k]
  {
    var w := Without(list, k);
    forall x | x in list && x != list[k]
      ensures x in w
    {
      var i :| 0 <= i < |list| && list[i] == x;
      assert if i < k then w[i] == x else w[i - 1] == x;
    }
  }

  /** Unlinking through the pointer that points at the descriptor. */
  lemma UnlinkAll(refs: seq<PageRef>, head: int, list: seq<nat>, k: nat) returns (refs': seq<PageRef>, head': int)
    requires LinkedAll(refs, head, list) && Distinct(list) && k < |list|
    ensures k == 0 ==> refs' == refs && head' == refs[list[0]].nextAll
    ensures k > 0 ==> head' == head
                      && refs' == refs[list[k - 1] := refs[list[k - 1]].(nextAll := refs[list[k]].nextAll)]
    ensures LinkedAll(refs', head', Without(list, k))
  {
    var w := Without(list, k);
    if k == 0 {
      refs', head' := refs, refs[list[0]].nextAll;
    } else {
      refs', head' := refs[list[k - 1] := refs[list[k - 1]].(nextAll := refs[list[k]].nextAll)], head;
    }
    forall i | 0 <= i < |w|
      ensures w[i] < |refs'| && refs'[w[i]].nextAll == Link(w, i + 1)
    {
      if i < k {
        assert w[i] == list[i];
      } else {
        assert w[i] == list[i + 1];
      }
    }
  }

  lemma UnlinkSame(refs: seq<PageRef>, head: int, list: seq<nat>, k: nat) returns (refs': seq<PageRef>, head': int)
    requires LinkedSame(refs, head, list) && Distinct(list) && k < |list|
    ensures k == 0 ==> refs' == refs && head' == refs[list[0]].nextSame
    ensures k > 0 ==> head' == head
                      && refs' == refs[list[k - 1] := refs[list[k - 1]].(nextSame := refs[list[k]].nextSame)]
    ensures LinkedSame(refs', head', Without(list, k))
  {
    var w := Without(list, k);
    if k == 0 {
      refs', head' := refs, refs[list[0]].nextSame;
    } else {
      refs', head' := refs[list[k - 1] := refs[list[k - 1]].(nextSame := refs[list[k]].nextSame)], head;
    }
    forall i | 0 <= i < |w|
      ensures w[i] < |refs'| && refs'[w[i]].nextSame == Link(w, i + 1)
    {
      if i < k {
        assert w[i] == list[i];
      } else {
        assert w[i] == list[i + 1];
      }
    }
  }

  // ----- the bitmap

  function CountTrue(s: seq<bool>): nat {
    if s == [] then 0 else (if s[0] then 1 else 0) + CountTrue(s[1..])
  }

  lemma {:induction false} CountBound(s: seq<bool>)
    ensures CountTrue(s) <= |s|
    ensures CountTrue(s) == |s| <==> forall i :: 0 <= i < |s| ==> s[i]
  {
    if s != [] {
      CountBound(s[1..]);
      if CountTrue(s) == |s| {
        forall i | 0 <= i < |s|
          ensures s[i]
        {
          assert i > 0 ==> s[i] == s[1..][i - 1];
        }
      }
    }
  }

  /** Flipping one bit moves the count by one. */
  lemma {:induction false} CountFlip(s: seq<bool>, i: nat)
    requires i < |s|
    ensures CountTrue(s[i := true]) == CountTrue(s) + if s[i] then 0 else 1
    ensures CountTrue(s[i := false]) == CountTrue(s) - if s[i] then 1 else 0
  {
    if i == 0 {
      assert s[0 := true][1..] == s[1..] == s[0 := false][1..];
    } else {
      CountFlip(s[1..], i - 1);
      assert s[i := true][1..] == s[1..][i - 1 := true];
      assert s[i := false][1..] == s[1..][i - 1 := false];
    }
  }
}
