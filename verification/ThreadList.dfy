/** threadlist.c: doubly linked lists of threads between two bookend nodes, as sequences of threads. */
module ThreadList {
  import opened Sequences

  class Node {
    var prev: Node?
    var next: Node?
    var self: Thread?

    constructor ()
      ensures prev == null && next == null && self == null
    {
      prev, next, self := null, null, null;
    }
  }

  class Thread {
    const listnode: Node

    /** threadlistnode_init */
    constructor ()
      ensures fresh(listnode) && Loose()
    {
      listnode := new Node();
      new;
      listnode.self := this;
    }

    /** On no list: its links are null, as threadlistnode_cleanup demands. */
    predicate Loose() reads listnode {
      listnode.prev == null && listnode.next == null && listnode.self == this
    }
  }

  /** Each node and the one after it point at each other; the first and last nodes point no further. */
  ghost predicate Linked(nodes: seq<Node>) reads nodes {
    && |nodes| >= 2 && nodes[0].prev == null && nodes[|nodes| - 1].next == null
    && forall i :: 0 <= i < |nodes| - 1 ==> nodes[i].next == nodes[i + 1] && nodes[i + 1].prev == nodes[i]
  }

  /** Every node between the ends is that of its thread, and the ends have none. */
  ghost predicate Named(nodes: seq<Node>, threads: seq<Thread>) reads nodes {
    && |nodes| == |threads| + 2 && nodes[0].self == null && nodes[|nodes| - 1].self == null
    && forall i :: 0 <= i < |threads| ==> nodes[i + 1] == threads[i].listnode && nodes[i + 1].self == threads[i]
  }

  ghost function ListNodes(threads: seq<Thread>): (s: seq<Node>)
    ensures |s| == |threads|
  {
    seq(|threads|, i requires 0 <= i < |threads| => threads[i].listnode)
  }

  /** Inserting a node keeps the nodes distinct. */
  lemma InsertDistinct(nodes: seq<Node>, k: nat, n: Node)
    requires Distinct(nodes) && k <= |nodes| && n !in nodes
    ensures Distinct(Insert(nodes, k, n))
  {
    var s := Insert(nodes, k, n);
    forall i, j | 0 <= i < j < |s|
      ensures s[i] != s[j]
    {
      assert i != k ==> s[i] == nodes[if i < k then i else i - 1];
      assert j != k ==> s[j] == nodes[if j < k then j else j - 1];
    }
  }

  /** The nodes on a list have links; so a thread without is not on it. */
  lemma LooseIsOff(nodes: seq<Node>, t: Thread)
    requires Linked(nodes) && t.Loose()
    ensures t.listnode !in nodes
  {
    forall i | 0 <= i < |nodes|
      ensures nodes[i] != t.listnode
    {
      if i < |nodes| - 1 {
        assert nodes[i].next == nodes[i + 1];
      } else {
        assert nodes[i - 1].next == nodes[i] && nodes[i].prev == nodes[i - 1];
      }
    }
  }

  // ----- the internal operations, on any stretch of nodes

  /** threadlist_insertafternode: onlist is nodes[i]. */
  method InsertAfterNode(onlist: Node, t: Thread, ghost nodes: seq<Node>, ghost i: nat, ghost after: Node)
    requires Linked(nodes) && Distinct(nodes) && i < |nodes| - 1 && nodes[i] == onlist && nodes[i + 1] == after
             && t.Loose()
    modifies onlist`next, after`prev, t.listnode`prev, t.listnode`next
    ensures Linked(Insert(nodes, i + 1, t.listnode)) && Distinct(Insert(nodes, i + 1, t.listnode))
    ensures t.listnode !in nodes
  {
    LooseIsOff(nodes, t);
    InsertDistinct(nodes, i + 1, t.listnode);
    var addee := t.listnode;
    addee.prev := onlist;
    addee.next := onlist.next;
    addee.prev.next := addee;
    addee.next.prev := addee;
  }

  /** threadlist_insertbeforenode: onlist is nodes[i]. */
  method InsertBeforeNode(t: Thread, onlist: Node, ghost nodes: seq<Node>, ghost i: nat, ghost before: Node)
    requires Linked(nodes) && Distinct(nodes) && 0 < i < |nodes| && nodes[i] == onlist && nodes[i - 1] == before
             && t.Loose()
    modifies onlist`prev, before`next, t.listnode`prev, t.listnode`next
    ensures Linked(Insert(nodes, i, t.listnode)) && Distinct(Insert(nodes, i, t.listnode))
    ensures t.listnode !in nodes
  {
    LooseIsOff(nodes, t);
    InsertDistinct(nodes, i, t.listnode);
    var addee := t.listnode;
    addee.prev := onlist.prev;
    addee.next := onlist;
    addee.prev.next := addee;
    addee.next.prev := addee;
  }

  /** threadlist_removenode: tln is nodes[i]. */
  method RemoveNode(tln: Node, ghost nodes: seq<Node>, ghost i: nat, ghost before: Node, ghost after: Node)
    requires Linked(nodes) && Distinct(nodes) && 0 < i < |nodes| - 1
    requires nodes[i] == tln && nodes[i - 1] == before && nodes[i + 1] == after
    modifies tln`prev, tln`next, before`next, after`prev
    ensures Linked(Delete(nodes, i)) && Distinct(Delete(nodes, i))
    ensures tln.prev == null && tln.next == null
  {
    tln.prev.next := tln.next;
    tln.next.prev := tln.prev;
    tln.prev := null;
    tln.next := null;
  }

  function Insert<T>(s: seq<T>, k: nat, x: T): seq<T>
    requires k <= |s|
  {
    s[..k] + [x] + s[k..]
  }

  function Delete<T>(s: seq<T>, k: nat): seq<T>
    requires k < |s|
  {
    s[..k] + s[k + 1..]
  }

  /** The bookends and the nodes between them. */
  ghost function Bookended(head: Node, threads: seq<Thread>, tail: Node): seq<Node> {
    [head] + ListNodes(threads) + [tail]
  }

  lemma NodesInsert(head: Node, threads: seq<Thread>, tail: Node, k: nat, t: Thread)
    requires k <= |threads|
    ensures Bookended(head, Insert(threads, k, t), tail) == Insert(Bookended(head, threads, tail), k + 1, t.listnode)
  {
  }

  lemma NodesDelete(head: Node, threads: seq<Thread>, tail: Node, k: nat)
    requires k < |threads|
    ensures Bookended(head, Delete(threads, k), tail) == Delete(Bookended(head, threads, tail), k + 1)
  {
  }

  lemma NamedInsert(nodes: seq<Node>, threads: seq<Thread>, k: nat, t: Thread)
    requires Named(nodes, threads) && k <= |threads| && t.listnode.self == t
    ensures Named(Insert(nodes, k + 1, t.listnode), Insert(threads, k, t))
  {
  }

  lemma NamedDelete(nodes: seq<Node>, threads: seq<Thread>, k: nat)
    requires Named(nodes, threads) && k < |threads|
    ensures Named(Delete(nodes, k + 1), Delete(threads, k))
  {
  }

  // ----- lists

  class List {
    const head: Node
    const tail: Node
    var count: nat
    ghost var threads: seq<Thread>

    ghost function Nodes(): seq<Node> reads this {
      Bookended(head, threads, tail)
    }

    ghost predicate Valid() reads this, Nodes() {
      && Linked(Nodes()) && Distinct(Nodes()) && Named(Nodes(), threads)
      && count == |threads|
    }

    /** threadlist_init */
    constructor ()
      ensures Valid() && threads == [] && fresh(Nodes())
    {
      head := new Node();
      tail := new Node();
      count, threads := 0, [];
      new;
      head.next, tail.prev := tail, head;
    }

    /** threadlist_isempty */
    method IsEmpty() returns (r: bool)
      requires Valid()
      ensures r <==> threads == []
    {
      return count == 0;
    }

    method AddHead(t: Thread)
      requires Valid() && t.Loose()
      modifies this`count, this`threads, Nodes(), t.listnode
      ensures Valid() && threads == [t] + old(threads)
    {
      hide Distinct, Linked, ListNodes;
      ghost var nodes := Nodes();
      NodesInsert(head, threads, tail, 0, t);
      NamedInsert(nodes, threads, 0, t);
      InsertAfterNode(head, t, nodes, 0, nodes[1]);
      count := count + 1;
      threads := Insert(threads, 0, t);
    }

    method AddTail(t: Thread)
      requires Valid() && t.Loose()
      modifies this`count, this`threads, Nodes(), t.listnode
      ensures Valid() && threads == old(threads) + [t]
              && Nodes() == Insert(old(Nodes()), |old(threads)| + 1, t.listnode)
    {
      hide Distinct, Linked, ListNodes;
      ghost var nodes, n := Nodes(), |threads|;
      NodesInsert(head, threads, tail, n, t);
      NamedInsert(nodes, threads, n, t);
      InsertBeforeNode(t, tail, nodes, n + 1, nodes[n]);
      count := count + 1;
      threads := Insert(threads, n, t);
    }

    /** threadlist_remhead; NULL is null. */
    method RemHead() returns (t: Thread?)
      requires Valid()
      modifies this`count, this`threads, Nodes()
      ensures Valid()
      ensures old(threads) == [] ==> t == null && threads == []
      ensures old(threads) != [] ==> t == old(threads[0]) && threads == old(threads[1..]) && t.Loose() && t !in threads
      ensures old(threads) == [] ==> Nodes() == old(Nodes())
      ensures old(threads) != []
              ==> Nodes() == Delete(old(Nodes()), 1) && t.listnode == old(Nodes())[1] && t.listnode !in Nodes()
    {
      hide Distinct, Linked, ListNodes;
      ghost var nodes := Nodes();
      LastIsTail(1);
      var tln := head.next;
      if tln.next == null {
        return null;
      }
      WhoseNode(0);
      NodesDelete(head, threads, tail, 0);
      NamedDelete(nodes, threads, 0);
      RemoveNode(tln, nodes, 1, nodes[0], nodes[2]);
      count := count - 1;
      threads := Delete(threads, 0);
      OffList(tln.self);
      return tln.self;
    }

    method RemTail() returns (t: Thread?)
      requires Valid()
      modifies this`count, this`threads, Nodes()
      ensures Valid()
      ensures old(threads) == [] ==> t == null && threads == []
      ensures old(threads) != [] ==> t == old(threads[|threads| - 1]) && threads == old(threads[..|threads| - 1])
                                     && t.Loose() && t !in threads
    {
      hide Distinct, Linked, ListNodes;
      ghost var nodes, k: nat := Nodes(), |threads|;
      FirstIsHead(k);
      var tln := tail.prev;
      if tln.prev == null {
        return null;
      }
      WhoseNode(k - 1);
      NodesDelete(head, threads, tail, k - 1);
      NamedDelete(nodes, threads, k - 1);
      RemoveNode(tln, nodes, k, nodes[k - 1], nodes[k + 1]);
      count := count - 1;
      threads := Delete(threads, k - 1);
      OffList(tln.self);
      return tln.self;
    }

    /** threadlist_insertafter */
    method InsertAfter(onlist: Thread, addee: Thread, ghost i: nat)
      requires Valid() && i < |threads| && threads[i] == onlist && addee.Loose()
      modifies this`count, this`threads, Nodes(), addee.listnode
      ensures Valid() && threads == Insert(old(threads), i + 1, addee)
    {
      hide Distinct, Linked, ListNodes;
      ghost var nodes := Nodes();
      WhoseNode(i);
      NodesInsert(head, threads, tail, i + 1, addee);
      NamedInsert(nodes, threads, i + 1, addee);
      InsertAfterNode(onlist.listnode, addee, nodes, i + 1, nodes[i + 2]);
      count := count + 1;
      threads := Insert(threads, i + 1, addee);
    }

    /** threadlist_insertbefore */
    method InsertBefore(addee: Thread, onlist: Thread, ghost i: nat)
      requires Valid() && i < |threads| && threads[i] == onlist && addee.Loose()
      modifies this`count, this`threads, Nodes(), addee.listnode
      ensures Valid() && threads == Insert(old(threads), i, addee)
    {
      hide Distinct, Linked, ListNodes;
      ghost var nodes := Nodes();
      WhoseNode(i);
      NodesInsert(head, threads, tail, i, addee);
      NamedInsert(nodes, threads, i, addee);
      InsertBeforeNode(addee, onlist.listnode, nodes, i + 1, nodes[i]);
      count := count + 1;
      threads := Insert(threads, i, addee);
    }

    /** threadlist_remove */
    method Remove(t: Thread, ghost i: nat)
      requires Valid() && i < |threads| && threads[i] == t
      modifies this`count, this`threads, Nodes()
      ensures Valid() && threads == Delete(old(threads), i) && t.Loose() && t !in threads
    {
      hide Distinct, Linked, ListNodes;
      ghost var nodes := Nodes();
      WhoseNode(i);
      NodesDelete(head, threads, tail, i);
      NamedDelete(nodes, threads, i);
      RemoveNode(t.listnode, nodes, i + 1, nodes[i], nodes[i + 2]);
      count := count - 1;
      threads := Delete(threads, i);
      OffList(t);
    }

    lemma Sizes()
      requires Valid()
      ensures |Nodes()| == |threads| + 2
    {
    }

    /** The i-th thread's node. */
    lemma WhoseNode(i: nat)
      requires Valid() && i < |threads|
      ensures |Nodes()| == |threads| + 2 && Nodes()[i + 1] == threads[i].listnode
              && threads[i].listnode.self == threads[i]
    {
    }

    /** A node on the list with no next is the tail bookend. */
    lemma LastIsTail(i: nat)
      requires Valid() && 0 < i < |Nodes()|
      ensures Nodes()[0] == head && Nodes()[i - 1].next == Nodes()[i]
      ensures Nodes()[i].next == null <==> i == |threads| + 1
    {
      if i < |threads| + 1 {
        assert Nodes()[i].next == Nodes()[i + 1];
      }
    }

    lemma FirstIsHead(i: nat)
      requires Valid() && i < |Nodes()| - 1
      ensures Nodes()[|threads| + 1] == tail && Nodes()[i + 1].prev == Nodes()[i]
      ensures Nodes()[i].prev == null <==> i == 0
    {
      if i > 0 {
        assert Nodes()[i].prev == Nodes()[i - 1];
      }
    }

    lemma OffList(t: Thread)
      requires Valid() && t.Loose()
      ensures t !in threads && t.listnode !in Nodes()
    {
      LooseIsOff(Nodes(), t);
      forall i | 0 <= i < |threads|
        ensures threads[i] != t
      {
        assert Nodes()[i + 1] == threads[i].listnode;
      }
    }

    /** THREADLIST_FORALL: from the head bookend until a node without a thread. */
    method Forward() returns (walk: seq<Thread>)
      requires Valid()
      ensures walk == threads
    {
      hide Distinct, Linked, Named, ListNodes;
      walk := [];
      LastIsTail(1);
      var node := head.next;
      SelfIs(1);
      while node.self != null
        invariant Valid() && |walk| <= |threads| && walk == threads[..|walk|] && node == Nodes()[|walk| + 1]
        invariant node.self == null <==> |walk| == |threads|
        decreases |threads| - |walk|
      {
        WhoseNode(|walk|);
        LastIsTail(|walk| + 2);
        SelfIs(|walk| + 2);
        walk := walk + [node.self];
        node := node.self.listnode.next;
      }
    }

    /** The bookends, and only they, have no thread. */
    lemma SelfIs(i: nat)
      requires Valid() && i < |Nodes()|
      ensures Nodes()[i].self == null <==> i == 0 || i == |threads| + 1
    {
      if 0 < i < |threads| + 1 {
        WhoseNode(i - 1);
      }
    }

    /** THREADLIST_FORALL_REV: the mirror image. */
    method Backward() returns (walk: seq<Thread>)
      requires Valid()
      ensures |walk| == |threads|
      ensures forall k :: 0 <= k < |walk| ==> walk[k] == threads[|threads| - 1 - k]
    {
      hide Distinct, Linked, Named, ListNodes;
      walk := [];
      FirstIsHead(|threads|);
      var node := tail.prev;
      SelfIs(|threads|);
      while node.self != null
        invariant Valid() && |walk| <= |threads| && node == Nodes()[|threads| - |walk|]
        invariant node.self == null <==> |walk| == |threads|
        invariant forall k :: 0 <= k < |walk| ==> walk[k] == threads[|threads| - 1 - k]
        decreases |threads| - |walk|
      {
        ghost var i: nat := |threads| - 1 - |walk|;
        WhoseNode(i);
        FirstIsHead(i);
        SelfIs(i);
        walk := walk + [node.self];
        node := node.self.listnode.prev;
      }
    }
  }

  /** Lists that share no node. */
  ghost predicate Apart(a: List, b: List) reads a, b {
    forall n :: n in a.Nodes() ==> n !in b.Nodes()
  }

  /** Taking a thread off one list leaves the other as it was. */
  method RemHeadBeside(from: List, other: List) returns (t: Thread?)
    requires from.Valid() && other.Valid() && from != other && Apart(from, other)
    modifies from`count, from`threads, from.Nodes()
    ensures from.Valid() && other.Valid() && other.threads == old(other.threads) && other.Nodes() == old(other.Nodes())
    ensures old(from.threads) == [] ==> t == null && from.threads == [] && from.Nodes() == old(from.Nodes())
    ensures old(from.threads) != [] ==> t == old(from.threads[0]) && from.threads == old(from.threads[1..]) && t.Loose()
    ensures old(from.threads) != [] ==> from.Nodes() == Delete(old(from.Nodes()), 1)
                                        && t.listnode == old(from.Nodes())[1] && t.listnode !in from.Nodes()
  {
    hide Delete, ListNodes, Bookended;
    ghost var nodes := other.Nodes();
    assert Linked(nodes) && Named(nodes, other.threads);
    assert nodes[0] !in from.Nodes() && forall i :: 0 <= i < |nodes| ==> nodes[i] !in from.Nodes();
    t := from.RemHead();
    assert forall i :: 0 <= i < |nodes| ==> nodes[i].next == old(nodes[i].next);
    assert forall i :: 0 <= i < |nodes| ==> nodes[i].prev == old(nodes[i].prev);
    assert forall i :: 0 <= i < |nodes| ==> nodes[i].self == old(nodes[i].self);
  }

  /** And so does putting one on. */
  method AddTailBeside(to: List, other: List, t: Thread)
    requires to.Valid() && other.Valid() && to != other && Apart(other, to) && t.Loose() && t.listnode !in other.Nodes()
    modifies to`count, to`threads, to.Nodes(), t.listnode
    ensures to.Valid() && other.Valid() && other.threads == old(other.threads) && other.Nodes() == old(other.Nodes())
    ensures to.threads == old(to.threads) + [t]
            && to.Nodes() == Insert(old(to.Nodes()), |old(to.threads)| + 1, t.listnode)
  {
    hide Insert, ListNodes, Bookended;
    ghost var nodes := other.Nodes();
    assert Linked(nodes) && Named(nodes, other.threads);
    assert nodes[0] !in to.Nodes() && forall i :: 0 <= i < |nodes| ==>
             nodes[i] !in to.Nodes() && nodes[i] != t.listnode;
    to.AddTail(t);
    assert forall i :: 0 <= i < |nodes| ==> nodes[i].next == old(nodes[i].next);
    assert forall i :: 0 <= i < |nodes| ==> nodes[i].prev == old(nodes[i].prev);
    assert forall i :: 0 <= i < |nodes| ==> nodes[i].self == old(nodes[i].self);
  }

  lemma StillApart(a: seq<Node>, b: seq<Node>, n: Node, k: nat)
    requires (forall x :: x in a ==> x !in b) && |a| > 1 && n == a[1] && k <= |b| && n !in Delete(a, 1)
    ensures forall x :: x in Delete(a, 1) ==> x in a && x !in Insert(b, k, n)
    ensures forall x :: x in Insert(b, k, n) ==> x in b || x in a
  {
    assert forall x :: x in Insert(b, k, n) <==> x in b || x == n by {
      assert b == b[..k] + b[k..];
    }
    forall x | x in Delete(a, 1)
      ensures x in a
    {
      var i :| 0 <= i < |Delete(a, 1)| && Delete(a, 1)[i] == x;
      assert x == a[if i < 1 then i else i + 1];
    }
  }

  ghost function Both(a: List, b: List): set<Node> reads a, b {
    (set n | n in a.Nodes()) + (set n | n in b.Nodes())
  }

  /** One turn of the first loop of wchan_wakeall. */
  method MoveOne(from: List, to: List) returns (t: Thread?)
    requires from.Valid() && to.Valid() && from != to && Apart(from, to)
    modifies from`count, from`threads, to`count, to`threads, Both(from, to)
    ensures from.Valid() && to.Valid() && Apart(from, to)
    ensures Both(from, to) <= old(Both(from, to))
    ensures t == null <==> old(from.threads) == []
    ensures t == null ==> from.threads == [] && to.threads == old(to.threads)
    ensures t != null ==> from.threads == old(from.threads)[1..]
                          && to.threads == old(to.threads) + [old(from.threads)[0]]
  {
    hide List.Valid, Insert, Delete, Bookended, ListNodes;
    ghost var a, b, k := from.Nodes(), to.Nodes(), |to.threads|;
    from.Sizes();
    to.Sizes();
    t := RemHeadBeside(from, to);
    if t != null {
      StillApart(a, b, t.listnode, k + 1);
      AddTailBeside(to, from, t);
    }
  }

  /** The first loop of wchan_wakeall: all threads move to another list, in order. */
  method MoveAll(from: List, to: List)
    requires from.Valid() && to.Valid() && from != to && Apart(from, to)
    modifies from`count, from`threads, to`count, to`threads, Both(from, to)
    ensures from.Valid() && to.Valid() && from.threads == [] && to.threads == old(to.threads) + old(from.threads)
  {
    hide List.Valid, Bookended, ListNodes;
    ghost var i, threads0 := 0, from.threads;
    var t := MoveOne(from, to);
    while t != null
      invariant from.Valid() && to.Valid() && Apart(from, to)
      invariant Both(from, to) <= old(Both(from, to))
      invariant t == null ==> from.threads == [] && to.threads == old(to.threads) + threads0
      invariant t != null ==> i < |threads0| && from.threads == threads0[i + 1..]
                              && to.threads == old(to.threads) + threads0[..i + 1]
      decreases if t == null then 0 else |threads0| - i
    {
      i := i + 1;
      t := MoveOne(from, to);
    }
  }
}
