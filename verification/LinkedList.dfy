/** linked_list.c: a doubly linked list kept in order of its keys. Every operation holds the list's
    lock from beginning to end, so that a yield in the middle shows nobody a half-done change. */
module LinkedList {
  import opened Options
  import opened Sequences

  const INT_MIN := -0x8000_0000
  const INT_MAX := 0x7fff_ffff

  /** int, and the value arithmetic on it wraps around to. */
  type key = x: int | INT_MIN <= x <= INT_MAX

  function Wrap(x: int): key {
    (x - INT_MIN) % 0x1_0000_0000 + INT_MIN
  }

  /** void *data */
  type data = nat

  datatype Item = Item(k: key, d: data)

  class Node {
    var prev: Node?
    var next: Node?
    const k: key
    const d: data

    /** linked_list_create_node */
    constructor (k: key, d: data)
      ensures prev == null && next == null && this.k == k && this.d == d
    {
      prev, next, this.k, this.d := null, null, k, d;
    }
  }

  /** The i-th node, or NULL outside the list. */
  ghost function At(nodes: seq<Node>, i: int): Node? {
    if 0 <= i < |nodes| then nodes[i] else null
  }

  /** The links are those of the sequence, and mirror each other. */
  ghost predicate Linked(nodes: seq<Node>) reads nodes {
    forall i :: 0 <= i < |nodes| ==> nodes[i].next == At(nodes, i + 1) && nodes[i].prev == At(nodes, i - 1)
  }

  ghost function ItemsOf(nodes: seq<Node>): (s: seq<Item>)
    ensures |s| == |nodes|
  {
    seq(|nodes|, i requires 0 <= i < |nodes| => Item(nodes[i].k, nodes[i].d))
  }

  ghost predicate Sorted(items: seq<Item>) {
    forall i, j :: 0 <= i < j < |items| ==> items[i].k <= items[j].k
  }

  /** Where insert puts a key: after the smaller ones, before the first that is not. */
  ghost predicate Position(items: seq<Item>, k: key, at: nat) {
    at <= |items| && (forall i :: 0 <= i < at ==> items[i].k < k) && (at < |items| ==> items[at].k >= k)
  }

  function Insert<T>(s: seq<T>, i: nat, x: T): seq<T>
    requires i <= |s|
  {
    s[..i] + [x] + s[i..]
  }

  lemma InsertSorted(items: seq<Item>, at: nat, x: Item)
    requires Sorted(items) && Position(items, x.k, at)
    ensures Sorted(Insert(items, at, x))
  {
    var s := Insert(items, at, x);
    forall i, j | 0 <= i < j < |s|
      ensures s[i].k <= s[j].k
    {
      InsertAt(items, at, x, i);
      InsertAt(items, at, x, j);
      if at < |items| && j > at + 1 {
        assert items[at].k <= items[j - 1].k;
      }
    }
  }

  lemma InsertAt<T>(s: seq<T>, at: nat, x: T, i: nat)
    requires at <= |s| && i <= |s|
    ensures Insert(s, at, x)[i] == if i < at then s[i] else if i == at then x else s[i - 1]
  {
  }

  lemma InsertMultiset<T>(s: seq<T>, at: nat, x: T)
    requires at <= |s|
    ensures multiset(Insert(s, at, x)) == multiset(s) + multiset{x}
  {
    assert s == s[..at] + s[at..];
  }

  /** A new first key one below the old first key keeps the order exactly when it does not wrap around. */
  lemma PrependSorted(items: seq<Item>, d: data)
    requires Sorted(items) && items != []
    ensures Sorted([Item(Wrap(items[0].k - 1), d)] + items) <==> items[0].k > INT_MIN
  {
    var s := [Item(Wrap(items[0].k - 1), d)] + items;
    assert s[1] == items[0] && s[0].k == if items[0].k > INT_MIN then items[0].k - 1 else INT_MAX;
    if items[0].k > INT_MIN {
      forall i, j | 0 <= i < j < |s|
        ensures s[i].k <= s[j].k
      {
        assert s[j] == items[j - 1] && (i > 0 ==> s[i] == items[i - 1]);
      }
    }
  }

  /** Prepending to a list whose first key is the least int gives the greatest int as the first key. */
  lemma PrependWraps(d: data)
    ensures Sorted([Item(INT_MIN, d)]) && !Sorted([Item(Wrap(INT_MIN - 1), d)] + [Item(INT_MIN, d)])
  {
    PrependSorted([Item(INT_MIN, d)], d);
  }

  /** A new node between two of the list, or at an end, with its links and theirs. */
  lemma LinkedInsert(nodes: seq<Node>, at: nat, n: Node)
    requires at <= |nodes| && Distinct(nodes) && n !in nodes
    requires n.prev == At(nodes, at - 1) && n.next == At(nodes, at)
    requires forall i :: 0 <= i < |nodes| ==> nodes[i].next == Either(i + 1 == at, n, At(nodes, i + 1))
    requires forall i :: 0 <= i < |nodes| ==> nodes[i].prev == Either(i == at, n, At(nodes, i - 1))
    ensures Linked(Insert(nodes, at, n)) && Distinct(Insert(nodes, at, n))
  {
    var s := Insert(nodes, at, n);
    forall i | 0 <= i < |s|
      ensures s[i].next == At(s, i + 1) && s[i].prev == At(s, i - 1)
    {
      InsertAt(nodes, at, n, i);
      if i + 1 < |s| { InsertAt(nodes, at, n, i + 1); }
      if i > 0 { InsertAt(nodes, at, n, i - 1); }
    }
    forall i, j | 0 <= i < j < |s|
      ensures s[i] != s[j]
    {
      InsertAt(nodes, at, n, i);
      InsertAt(nodes, at, n, j);
    }
  }

  function Either(c: bool, a: Node?, b: Node?): Node? {
    if c then a else b
  }

  lemma InsertMembers(nodes: seq<Node>, at: nat, n: Node)
    requires at <= |nodes|
    ensures forall x :: x in Insert(nodes, at, n) <==> x == n || x in nodes
  {
    assert nodes == nodes[..at] + nodes[at..];
  }

  lemma ItemsInsert(nodes: seq<Node>, at: nat, n: Node)
    requires at <= |nodes|
    ensures ItemsOf(Insert(nodes, at, n)) == Insert(ItemsOf(nodes), at, Item(n.k, n.d))
  {
  }

  /** The new node goes in front of runner, which is nodes[at]: the links of linked_list_insert's first
      case, and for at 0 those of linked_list_prepend. */
  method LinkBefore(n: Node, runner: Node, ghost nodes: seq<Node>, ghost at: nat, ghost before: Node?)
    requires Linked(nodes) && Distinct(nodes) && at < |nodes| && nodes[at] == runner && n !in nodes
    requires n.prev == null && n.next == null && before == At(nodes, at - 1)
    modifies n, runner, before
    ensures Linked(Insert(nodes, at, n)) && Distinct(Insert(nodes, at, n))
    ensures n.prev == At(nodes, at - 1) && n.next == runner
  {
    AllOther(nodes, at);
    AllOther(nodes, at - 1);
    hide Distinct, Insert;
    var prev := runner.prev;
    n.next := runner;
    n.prev := prev;
    runner.prev := n;
    if prev != null {
      prev.next := n;
    }
    hide Linked;
    assert forall i :: 0 <= i < |nodes| ==> nodes[i].next == Either(i + 1 == at, n, At(nodes, i + 1));
    assert forall i :: 0 <= i < |nodes| ==> nodes[i].prev == Either(i == at, n, At(nodes, i - 1));
    LinkedInsert(nodes, at, n);
  }

  /** The second node, if any, becomes the first. */
  method Behead(newHead: Node?, ghost nodes: seq<Node>)
    requires Linked(nodes) && Distinct(nodes) && nodes != [] && newHead == At(nodes, 1)
    modifies newHead
    ensures Linked(nodes[1..])
  {
    AllOther(nodes, 1);
    hide Distinct;
    if newHead != null {
      newHead.prev := null;
    }
    ghost var rest := nodes[1..];
    assert forall i :: 0 <= i < |rest| ==> rest[i] == nodes[i + 1];
  }

  lemma RestDistinct(nodes: seq<Node>)
    requires Distinct(nodes)
    ensures nodes != [] ==> Distinct(nodes[1..])
  {
  }

  lemma AllOther(nodes: seq<Node>, k: int)
    requires Distinct(nodes)
    ensures forall i :: 0 <= i < |nodes| && i != k && 0 <= k < |nodes| ==> nodes[i] != nodes[k]
  {
  }

  /** The new node goes behind the last one. */
  method LinkAfter(n: Node, last: Node, ghost nodes: seq<Node>)
    requires Linked(nodes) && Distinct(nodes) && nodes != [] && nodes[|nodes| - 1] == last && n !in nodes
    requires n.prev == null && n.next == null
    modifies n, last
    ensures Linked(Insert(nodes, |nodes|, n)) && Distinct(Insert(nodes, |nodes|, n))
    ensures n.prev == last && n.next == null
  {
    n.next := null;
    n.prev := last;
    last.next := n;
    LinkedInsert(nodes, |nodes|, n);
  }

  class List {
    var first: Node?
    var last: Node?
    var length: int
    ghost var nodes: seq<Node>

    ghost predicate Valid() reads this, nodes {
      Linked(nodes) && Distinct(nodes) && Ends(first, last, length, nodes)
    }

    ghost function Items(): seq<Item> reads this {
      ItemsOf(nodes)
    }

    /** linked_list_create */
    constructor ()
      ensures Valid() && nodes == []
    {
      first, last, length, nodes := null, null, 0, [];
    }

    /** linked_list_prepend. The order of the keys survives exactly when the new key does not wrap. */
    method Prepend(d: data)
      requires Valid()
      modifies this, nodes
      ensures Valid() && forall n :: n in nodes ==> n in old(nodes) || fresh(n)
      ensures Items() == [Item(if old(nodes) == [] then 0 else Wrap(old(Items())[0].k - 1), d)] + old(Items())
      ensures Sorted(old(Items())) ==> (Sorted(Items()) <==> old(nodes) == [] || old(Items())[0].k > INT_MIN)
    {
      hide Sorted, ItemsOf, Insert, Linked, Distinct, Wrap;
      FirstItem(nodes);
      if Sorted(Items()) && nodes != [] {
        PrependSorted(Items(), d);
      }
      EndsAre(first, last, length, nodes);
      var f := first;
      var newnode;
      if first == null {
        newnode := new Node(0, d);
        OneLinked(newnode);
        first := newnode;
        last := newnode;
      } else {
        newnode := new Node(Wrap(f.k - 1), d);
        LinkBefore(newnode, f, nodes, 0, null);
        first := newnode;
      }
      length := length + 1;
      ItemsInsert(nodes, 0, newnode);
      FrontIs(nodes, newnode);
      FrontIs(Items(), Item(newnode.k, d));
      OneSorted(Item(0, d));
      nodes := Insert(nodes, 0, newnode);
    }

    /** linked_list_insert */
    method InsertKey(k: key, d: data) returns (ghost at: nat)
      requires Valid()
      modifies this, nodes
      ensures Valid() && forall n :: n in nodes ==> n in old(nodes) || fresh(n)
      ensures Position(old(Items()), k, at) && Items() == Insert(old(Items()), at, Item(k, d))
      ensures Sorted(old(Items())) ==> Sorted(Items())
    {
      hide Sorted, ItemsOf, Insert, Linked, Distinct;
      var node := new Node(k, d);
      EndsAre(first, last, length, nodes);
      var runner := first;
      at := 0;
      if runner == null {
        OneLinked(node);
        first := node;
        last := node;
      } else {
        runner, at := Search(runner, k, nodes);
        if runner != null {
          LinkBefore(node, runner, nodes, at, At(nodes, at - 1));
        } else {
          LinkAfter(node, last, nodes);
        }
        if node.prev == null {
          first := node;
        }
        if node.next == null {
          last := node;
        }
      }
      length := length + 1;
      FirstNotLess(nodes, k, at);
      ItemsInsert(nodes, at, node);
      if Sorted(Items()) {
        InsertSorted(Items(), at, Item(k, d));
      }
      EndsInsert(nodes, at, node);
      InsertMembers(nodes, at, node);
      nodes := Insert(nodes, at, node);
    }

    /** linked_list_remove_head: NULL is None. The shortcut on the length leaves `last' right. */
    method RemoveHead() returns (r: Option<Item>)
      requires Valid()
      modifies this, nodes
      ensures Valid() && (forall n :: n in nodes ==> n in old(nodes))
      ensures old(nodes) == [] ==> r == None && nodes == []
      ensures old(nodes) != [] ==> r == Some(old(Items())[0]) && nodes == old(nodes)[1..]
                                   && Items() == old(Items())[1..]
      ensures old(nodes) != [] && Sorted(old(Items())) ==> Sorted(Items()) && Least(r.value.k, old(Items()))
    {
      hide Sorted, ItemsOf, Least, Distinct;
      ItemsRest(nodes);
      RestDistinct(nodes);
      var removed := first;
      if removed == null {
        return None;
      }
      var newHead := removed.next;
      r := Some(Item(removed.k, removed.d));
      first := newHead;
      hide Linked;
      Behead(newHead, nodes);
      if length <= 2 {
        last := newHead;
      }
      length := length - 1;
      nodes := nodes[1..];
    }
  }

  // ----- runs

  datatype Op = DoPrepend(d: data) | DoInsert(k: key, d: data) | DoRemoveHead

  /** What is in the list, in order; or a prepend would have wrapped its key around. */
  datatype State = Holds(items: seq<Item>) | Wraps

  ghost predicate StateOk(s: State) {
    s.Holds? ==> Sorted(s.items)
  }

  /** The place insert finds. */
  ghost function Where(items: seq<Item>, k: key): (at: nat)
    ensures Position(items, k, at)
  {
    if items == [] || items[0].k >= k then 0 else 1 + Where(items[1..], k)
  }

  lemma OnePosition(items: seq<Item>, k: key, at: nat)
    requires Position(items, k, at)
    ensures at == Where(items, k)
  {
  }

  /** The item an operation puts in, and the one it takes out, if any. */
  ghost function PutIn(items: seq<Item>, op: Op): seq<Item> {
    match op
    case DoPrepend(d) => [Item(if items == [] then 0 else Wrap(items[0].k - 1), d)]
    case DoInsert(k, d) => [Item(k, d)]
    case DoRemoveHead => []
  }

  ghost function TakenOut(items: seq<Item>, op: Op): seq<Item> {
    if op.DoRemoveHead? && items != [] then [items[0]] else []
  }

  ghost function Next(s: State, op: Op): State {
    if s.Wraps? then
      Wraps
    else
      match op
      case DoPrepend(d) =>
        if s.items != [] && s.items[0].k == INT_MIN then Wraps else Holds(PutIn(s.items, op) + s.items)
      case DoInsert(k, d) => Holds(Insert(s.items, Where(s.items, k), Item(k, d)))
      case DoRemoveHead => Holds(s.items[|TakenOut(s.items, op)|..])
  }

  ghost function Reached(s: State, ops: seq<Op>): State {
    if ops == [] then s else Next(Reached(s, ops[..|ops| - 1]), ops[|ops| - 1])
  }

  lemma OneMore(s: State, ops: seq<Op>, i: nat)
    requires i < |ops|
    ensures Reached(s, ops[..i + 1]) == Next(Reached(s, ops[..i]), ops[i])
  {
    assert ops[..i + 1][..i] == ops[..i];
  }

  /** All that the operations put in, and all they took out. */
  ghost function AllIn(s: State, ops: seq<Op>): seq<Item> {
    if ops == [] then []
    else
      var before := Reached(s, ops[..|ops| - 1]);
      AllIn(s, ops[..|ops| - 1]) + (if before.Holds? then PutIn(before.items, ops[|ops| - 1]) else [])
  }

  ghost function AllOut(s: State, ops: seq<Op>): seq<Item> {
    if ops == [] then []
    else
      var before := Reached(s, ops[..|ops| - 1]);
      AllOut(s, ops[..|ops| - 1]) + (if before.Holds? then TakenOut(before.items, ops[|ops| - 1]) else [])
  }

  lemma Joined(s: seq<Item>, t: seq<Item>)
    ensures multiset(s + t) == multiset(s) + multiset(t)
  {
  }

  lemma Beheaded(s: seq<Item>)
    ensures s != [] ==> multiset(s) == multiset(s[1..]) + multiset([s[0]])
    ensures s[0..] == s
  {
    assert s != [] ==> s == [s[0]] + s[1..];
  }

  lemma OneChange(items: seq<Item>, op: Op)
    requires Next(Holds(items), op).Holds?
    ensures multiset(Next(Holds(items), op).items) + multiset(TakenOut(items, op))
            == multiset(items) + multiset(PutIn(items, op))
  {
    hide Where, Insert;
    match op {
      case DoPrepend(d) => Joined(PutIn(items, op), items);
      case DoInsert(k, d) => InsertMultiset(items, Where(items, k), Item(k, d));
      case DoRemoveHead => Beheaded(items);
    }
  }

  /** What is in the list is what was there and went in, less what came out. */
  lemma {:induction false} Conserved(s: State, ops: seq<Op>)
    requires s.Holds? && Reached(s, ops).Holds?
    ensures multiset(Reached(s, ops).items) + multiset(AllOut(s, ops)) == multiset(s.items) + multiset(AllIn(s, ops))
  {
    hide Next, PutIn, TakenOut;
    if ops != [] {
      var n := |ops| - 1;
      WasHolding(Reached(s, ops[..n]), ops[n]);
      Conserved(s, ops[..n]);
      var items := Reached(s, ops[..n]).items;
      OneChange(items, ops[n]);
      Joined(AllOut(s, ops[..n]), TakenOut(items, ops[n]));
      Joined(AllIn(s, ops[..n]), PutIn(items, ops[n]));
      InAndOut(multiset(s.items), multiset(AllIn(s, ops[..n])), multiset(AllOut(s, ops[..n])), multiset(items),
               multiset(PutIn(items, ops[n])), multiset(TakenOut(items, ops[n])), multiset(Reached(s, ops).items));
    }
  }

  lemma InAndOut(first: multiset<Item>, added: multiset<Item>, removed: multiset<Item>, now: multiset<Item>,
                 a: multiset<Item>, r: multiset<Item>, next: multiset<Item>)
    requires now + removed == first + added && next + r == now + a
    ensures next + (removed + r) == first + (added + a)
  {
    assert next + (removed + r) == now + a + removed;
    assert first + (added + a) == now + removed + a;
  }

  lemma WasHolding(s: State, op: Op)
    requires Next(s, op).Holds?
    ensures s.Holds?
  {
  }

  /** One operation, unless it is a prepend whose key would wrap around. */
  method Step(list: List, op: Op) returns (wrapped: bool)
    requires list.Valid() && Sorted(list.Items())
    modifies list, list.nodes
    ensures list.Valid() && Sorted(list.Items()) && forall n :: n in list.nodes ==> n in old(list.nodes) || fresh(n)
    ensures Next(Holds(old(list.Items())), op) == if wrapped then Wraps else Holds(list.Items())
  {
    hide Sorted, ItemsOf, Linked, Distinct, Insert, Position;
    wrapped := false;
    ghost var items := list.Items();
    FirstItem(list.nodes);
    EndsAre(list.first, list.last, list.length, list.nodes);
    match op {
      case DoPrepend(d) =>
        if list.first != null && list.first.k == INT_MIN {
          wrapped := true;
        } else {
          list.Prepend(d);
        }
      case DoInsert(k, d) =>
        ghost var at := list.InsertKey(k, d);
        OnePosition(items, k, at);
      case DoRemoveHead =>
        var r := list.RemoveHead();
        assert items == [] ==> items[0..] == items;
    }
  }

  /** Any sequence of operations, up to a prepend whose key would wrap around: the list does what the
      sequence of its items does, and is sorted in every state on the way. */
  method Run(list: List, ops: seq<Op>) returns (wrapped: bool)
    requires list.Valid() && Sorted(list.Items())
    modifies list, list.nodes
    ensures list.Valid()
    ensures Reached(Holds(old(list.Items())), ops) == if wrapped then Wraps else Holds(list.Items())
    ensures forall i :: 0 <= i <= |ops| ==> StateOk(Reached(Holds(old(list.Items())), ops[..i]))
  {
    hide Sorted, ItemsOf, List.Valid, List.Items, Next;
    wrapped := false;
    ghost var was := Holds(list.Items());
    for i := 0 to |ops|
      invariant list.Valid() && Sorted(list.Items())
      invariant forall n :: n in list.nodes ==> n in old(list.nodes) || fresh(n)
      invariant Reached(was, ops[..i]) == if wrapped then Wraps else Holds(list.Items())
      invariant forall j :: 0 <= j <= i ==> StateOk(Reached(was, ops[..j]))
    {
      OneMore(was, ops, i);
      assert forall j :: 0 <= j < |list.nodes| ==> list.nodes[j] in old(list.nodes) || fresh(list.nodes[j]);
      if wrapped {
        StaysWrapped(ops[i]);
      } else {
        wrapped := Step(list, ops[i]);
      }
    }
    assert ops[..|ops|] == ops;
  }

  lemma StaysWrapped(op: Op)
    ensures Next(Wraps, op) == Wraps
  {
  }

  ghost predicate Ends(first: Node?, last: Node?, length: int, nodes: seq<Node>) {
    first == At(nodes, 0) && last == At(nodes, |nodes| - 1) && length == |nodes|
  }

  lemma EndsAre(first: Node?, last: Node?, length: int, nodes: seq<Node>)
    requires Ends(first, last, length, nodes)
    ensures first == null <==> nodes == []
    ensures nodes != [] ==> last == nodes[|nodes| - 1]
  {
  }

  lemma EndsInsert(nodes: seq<Node>, at: nat, n: Node)
    requires at <= |nodes|
    ensures |Insert(nodes, at, n)| == |nodes| + 1
    ensures At(Insert(nodes, at, n), 0) == Either(at == 0, n, At(nodes, 0))
    ensures At(Insert(nodes, at, n), |nodes|) == Either(at == |nodes|, n, At(nodes, |nodes| - 1))
  {
  }

  /** The loop of insert: the first node whose key is not less. */
  method Search(first: Node?, k: key, ghost nodes: seq<Node>) returns (runner: Node?, ghost at: nat)
    requires Linked(nodes) && first == At(nodes, 0)
    ensures at <= |nodes| && runner == At(nodes, at) && (runner != null ==> runner.k >= k)
    ensures forall i :: 0 <= i < at ==> nodes[i].k < k
  {
    runner, at := first, 0;
    while runner != null && runner.k < k
      invariant at <= |nodes| && runner == At(nodes, at)
      invariant forall i :: 0 <= i < at ==> nodes[i].k < k
      decreases |nodes| - at
    {
      runner := runner.next;
      at := at + 1;
    }
  }

  lemma OneLinked(n: Node)
    requires n.prev == null && n.next == null
    ensures Linked(Insert([], 0, n)) && Distinct(Insert([], 0, n))
  {
  }

  lemma FirstNotLess(nodes: seq<Node>, k: key, at: nat)
    requires at <= |nodes| && (forall i :: 0 <= i < at ==> nodes[i].k < k) && (at < |nodes| ==> nodes[at].k >= k)
    ensures Position(ItemsOf(nodes), k, at)
  {
  }

  ghost predicate Least(k: key, items: seq<Item>) {
    forall i :: 0 <= i < |items| ==> k <= items[i].k
  }

  lemma ItemsRest(nodes: seq<Node>)
    ensures nodes != [] ==> ItemsOf(nodes[1..]) == ItemsOf(nodes)[1..]
                            && ItemsOf(nodes)[0] == Item(nodes[0].k, nodes[0].d)
    ensures nodes != [] && Sorted(ItemsOf(nodes)) ==> Sorted(ItemsOf(nodes[1..])) && Least(nodes[0].k, ItemsOf(nodes))
  {
  }

  lemma FirstItem(nodes: seq<Node>)
    ensures nodes != [] ==> ItemsOf(nodes)[0] == Item(nodes[0].k, nodes[0].d)
    ensures |ItemsOf(nodes)| == |nodes|
  {
  }

  lemma FrontIs<T>(s: seq<T>, x: T)
    ensures Insert(s, 0, x) == [x] + s
  {
  }

  lemma OneSorted(x: Item)
    ensures Sorted([x]) && [x] + [] == [x]
  {
  }
}
