/** hangman.c, the deadlock detector: who waits for whom, and when that closes a cycle. */
module Hangman {
  import opened Options
  import opened Sequences

  // ----- graphs in which a node has at most one successor

  /** The node n steps on. */
  ghost function Follow<T>(g: map<T, T>, x: T, n: nat): Option<T> {
    if n == 0 then Some(x) else if x in g then Follow(g, g[x], n - 1) else None
  }

  ghost predicate CycleIn<T>(g: map<T, T>) {
    exists x, n: nat :: x in g && n > 0 && Follow(g, x, n) == Some(x)
  }

  ghost predicate Reaches<T>(g: map<T, T>, x: T, y: T) {
    exists n: nat :: Follow(g, x, n) == Some(y)
  }

  lemma {:induction false} FollowAdd<T>(g: map<T, T>, x: T, m: nat, n: nat)
    requires Follow(g, x, m).Some?
    ensures Follow(g, x, m + n) == Follow(g, Follow(g, x, m).value, n)
  {
    if m > 0 {
      FollowAdd(g, g[x], m - 1, n);
    }
  }

  /** Before the end of a walk no node is missing. */
  lemma {:induction false} FollowPrefix<T>(g: map<T, T>, x: T, m: nat, n: nat)
    requires Follow(g, x, n).Some? && m <= n
    ensures Follow(g, x, m).Some?
    ensures m < n ==> Follow(g, x, m).value in g
  {
    if m > 0 {
      FollowPrefix(g, g[x], m - 1, n - 1);
    }
  }

  /** Two graphs that agree on a walk of one of them have that walk in common. */
  lemma {:induction false} SameWalk<T>(g: map<T, T>, g': map<T, T>, x: T, n: nat)
    requires Follow(g', x, n).Some?
    requires forall k: nat :: k < n && Follow(g', x, k).Some? ==>
               var y := Follow(g', x, k).value; y in g' ==> y in g && g[y] == g'[y]
    ensures Follow(g, x, n) == Follow(g', x, n)
  {
    if n > 0 {
      assert Follow(g', x, 0) == Some(x);
      forall k: nat | k < n - 1 && Follow(g', g'[x], k).Some?
        ensures var y := Follow(g', g'[x], k).value; y in g' ==> y in g && g[y] == g'[y]
      {
        assert Follow(g', x, k + 1) == Follow(g', g'[x], k);
      }
      SameWalk(g, g', g'[x], n - 1);
    }
  }

  /** Every node of a cycle is on it. */
  lemma OnCycle<T>(g: map<T, T>, x: T, n: nat, k: nat)
    requires n > 0 && k < n && Follow(g, x, n) == Some(x) && Follow(g, x, k).Some?
    ensures Follow(g, Follow(g, x, k).value, n) == Follow(g, x, k)
  {
    FollowAdd(g, x, k, n);
    FollowAdd(g, x, n, k);
  }

  /** A cycle in the new graph that avoids what is new was there before. */
  lemma OldCycle<T>(g: map<T, T>, g': map<T, T>, x: T, n: nat)
    requires n > 0 && Follow(g', x, n) == Some(x)
    requires forall k: nat :: k < n && Follow(g', x, k).Some? ==>
               var y := Follow(g', x, k).value; y in g' ==> y in g && g[y] == g'[y]
    ensures CycleIn(g)
  {
    SameWalk(g, g', x, n);
    assert x in g;
  }

  /** The first time a walk comes to y, if it does. */
  lemma {:induction false} FirstTime<T>(g: map<T, T>, x: T, y: T, n: nat) returns (m: nat)
    requires Follow(g, x, n) == Some(y)
    ensures m <= n && Follow(g, x, m) == Some(y)
    ensures forall k: nat :: k < m ==> Follow(g, x, k) != Some(y)
  {
    if k: nat :| k < n && Follow(g, x, k) == Some(y) {
      m := FirstTime(g, x, y, k);
    } else {
      m := n;
    }
  }

  /** A new edge from a, which had none, to h closes a cycle exactly when h reached a. */
  lemma NewEdge<T>(g: map<T, T>, a: T, h: T)
    requires !CycleIn(g) && a !in g
    ensures CycleIn(g[a := h]) <==> Reaches(g, h, a)
  {
    var g' := g[a := h];
    if Reaches(g, h, a) {
      var n: nat :| Follow(g, h, n) == Some(a);
      forall k: nat | k < n && Follow(g, h, k).Some?
        ensures var y := Follow(g, h, k).value; y in g ==> y in g' && g'[y] == g[y]
      {
      }
      SameWalk(g', g, h, n);
      assert Follow(g', a, n + 1) == Some(a);
    }
    if CycleIn(g') {
      var x, n: nat :| x in g' && n > 0 && Follow(g', x, n) == Some(x);
      if k: nat :| k < n && Follow(g', x, k) == Some(a) {
        OnCycle(g', x, n, k);
        assert Follow(g', h, n - 1) == Some(a);
        var m := FirstTime(g', h, a, n - 1);
        SameWalk(g, g', h, m);
        assert Follow(g, h, m) == Some(a);
      } else {
        OldCycle(g, g', x, n);
      }
    }
  }

  /** The nodes of a cycle have successors, and so have those. */
  lemma CycleStays<T>(g: map<T, T>, x: T, n: nat, k: nat)
    requires k < n && Follow(g, x, n) == Some(x)
    ensures Follow(g, x, k).Some? && Follow(g, x, k).value in g && g[Follow(g, x, k).value] in g
  {
    FollowPrefix(g, x, k, n);
    FollowAdd(g, x, k, 1);
    FollowPrefix(g, x, k + 1, n);
    FollowPrefix(g, x, 0, n);
  }

  /** Edges into a node without successor close no cycle, and neither does losing edges. */
  lemma NoNewCycle<T>(g: map<T, T>, g': map<T, T>, a: T)
    requires !CycleIn(g) && a !in g'
    requires forall y :: y in g' ==> (y in g && g'[y] == g[y]) || g'[y] == a
    ensures !CycleIn(g')
  {
    if CycleIn(g') {
      var x, n: nat :| x in g' && n > 0 && Follow(g', x, n) == Some(x);
      forall k: nat | k < n
        ensures Follow(g', x, k).Some? && var y := Follow(g', x, k).value; y in g' && y in g && g[y] == g'[y]
      {
        CycleStays(g', x, n, k);
      }
      OldCycle(g, g', x, n);
    }
  }

  lemma RepeatIsCycle<T>(g: map<T, T>, x: T, n: nat, i: nat, j: nat)
    requires Follow(g, x, n).Some? && i < j <= n && Follow(g, x, i) == Follow(g, x, j)
    ensures CycleIn(g)
  {
    FollowPrefix(g, x, i, n);
    FollowAdd(g, x, i, j - i);
  }

  /** A walk in a graph without cycles does not come back, so it ends within the number of nodes. */
  lemma WalkEnds<T>(g: map<T, T>, x: T, n: nat)
    requires !CycleIn(g) && Follow(g, x, n).Some?
    ensures n <= |g.Keys|
  {
    forall i: nat, j: nat | i < j < n
      ensures Follow(g, x, i) != Follow(g, x, j)
    {
      if Follow(g, x, i) == Follow(g, x, j) {
        RepeatIsCycle(g, x, n, i, j);
      }
    }
    AllDifferent(g, x, n, n);
    SubsetCount(Visited(g, x, n), g.Keys);
  }

  ghost function Visited<T>(g: map<T, T>, x: T, n: nat): set<T> {
    if n == 0 then {} else
      Visited(g, x, n - 1) + if Follow(g, x, n - 1).Some? then {Follow(g, x, n - 1).value} else {}
  }

  lemma {:induction false} VisitedBefore<T>(g: map<T, T>, x: T, n: nat, y: T) returns (m: nat)
    requires y in Visited(g, x, n)
    ensures m < n && Follow(g, x, m) == Some(y)
  {
    if y in Visited(g, x, n - 1) {
      m := VisitedBefore(g, x, n - 1, y);
    } else {
      m := n - 1;
    }
  }

  lemma {:induction false} AllDifferent<T>(g: map<T, T>, x: T, n: nat, k: nat)
    requires Follow(g, x, n).Some? && k <= n
    requires forall i: nat, j: nat :: i < j < n ==> Follow(g, x, i) != Follow(g, x, j)
    ensures |Visited(g, x, k)| == k && Visited(g, x, k) <= g.Keys
  {
    if k > 0 {
      AllDifferent(g, x, n, k - 1);
      FollowPrefix(g, x, k - 1, n);
      NewNode(g, x, n, k);
    }
  }

  lemma NewNode<T>(g: map<T, T>, x: T, n: nat, k: nat)
    requires 0 < k <= n && Follow(g, x, k - 1).Some?
    requires forall i: nat, j: nat :: i < j < n ==> Follow(g, x, i) != Follow(g, x, j)
    ensures Follow(g, x, k - 1).value !in Visited(g, x, k - 1)
  {
    var y := Follow(g, x, k - 1).value;
    if y in Visited(g, x, k - 1) {
      var m := VisitedBefore(g, x, k - 1, y);
    }
  }

  /** A walk that ends without having met the target never does. */
  lemma DeadEnd<T>(g: map<T, T>, x: T, n: nat, target: T)
    requires Follow(g, x, n).Some? && Follow(g, x, n).value !in g
    requires forall k: nat :: k <= n ==> Follow(g, x, k) != Some(target)
    ensures !Reaches(g, x, target)
  {
    if Reaches(g, x, target) {
      var m: nat :| Follow(g, x, m) == Some(target);
      FollowAdd(g, x, n, m - n);
    }
  }

  // ----- actors and lockables

  class Actor {
    var waiting: Lockable?

    constructor ()
      ensures waiting == null
    {
      waiting := null;
    }
  }

  class Lockable {
    var holding: Actor?

    constructor ()
      ensures holding == null
    {
      holding := null;
    }
  }

  /** How an operation ends. */
  datatype Outcome = Fine | AlreadyWaiting | Deadlock | NotWaitingForIt | StillHeld | NotHolder

  class Detector {
    /** The lockable of the spinlock that protects the detector itself. */
    const own: Lockable
    ghost const actors: set<Actor>
    ghost const lockables: set<Lockable>

    constructor (own: Lockable, actors: set<Actor>, lockables: set<Lockable>)
      requires own in lockables
      requires (forall a :: a in actors ==> a.waiting == null) && (forall l :: l in lockables ==> l.holding == null)
      ensures Valid() && this.own == own && this.actors == actors && this.lockables == lockables
    {
      this.own, this.actors, this.lockables := own, actors, lockables;
    }

    /** The waits-for graph: from a waiting actor to the holder of what it waits for. */
    ghost function Graph(): map<Actor, Actor>
      reads actors, lockables
    {
      map a | a in actors && a.waiting != null && a.waiting in lockables
        && a.waiting.holding != null :: a.waiting.holding
    }

    ghost function Now(): State
      reads actors, lockables
    {
      State(map a | a in actors :: a.waiting, map l | l in lockables :: l.holding)
    }

    lemma GraphIs()
      requires Valid()
      ensures GraphOf(Now()) == Graph()
    {
      hide CycleIn;
    }

    ghost predicate Valid()
      reads this, actors, lockables
    {
      && own in lockables
      && (forall a :: a in actors && a.waiting != null ==> a.waiting in lockables && a.waiting != own)
      && (forall l :: l in lockables && l.holding != null ==> l.holding in actors)
      && !CycleIn(Graph())
    }

    /** The path from what l's holder waits for leads to the actor. */
    ghost predicate Leads(l: Lockable, target: Actor)
      reads this, actors, lockables, l
    {
      l.holding != null && Reaches<Actor>(Graph(), l.holding, target)
    }

    /** hangman_check: the loop ends, and finds the target exactly when there is a path to it. */
    method Check(start: Lockable, target: Actor) returns (found: bool)
      requires Valid() && start in lockables && target in actors
      ensures found <==> Leads(start, target)
    {
      ghost var g, n := Graph(), 0;
      ghost var first: Actor := if start.holding != null then start.holding else target;
      var cur := start.holding;
      while cur != null
        invariant cur != null ==> cur in actors && start.holding == first
                                  && Follow(g, first, n) == Option<Actor>.Some(cur)
        invariant cur != null ==> forall k: nat :: k < n ==> Follow(g, first, k) != Some(target)
        invariant cur == null ==> !Leads(start, target)
        decreases if cur == null then 0 else 1, |g.Keys| + 1 - n
      {
        WalkEnds(g, first, n);
        if cur == target {
          return true;
        }
        FollowAdd(g, first, n, 1);
        if cur.waiting == null {
          DeadEnd(g, first, n, target);
          break;
        }
        if cur.waiting.holding == null {
          DeadEnd(g, first, n, target);
        }
        cur := cur.waiting.holding;
        n := n + 1;
      }
      return false;
    }

    /** The walk that prints the cycle once it is found: it comes to the target. */
    method Report(start: Lockable, target: Actor) returns (trace: seq<Actor>)
      requires Valid() && start in lockables && target in actors && Leads(start, target)
      ensures trace != [] && trace[0] == start.holding && trace[|trace| - 1] == target
      ensures forall i :: 0 <= i < |trace| - 1 ==> trace[i] in Graph() && Graph()[trace[i]] == trace[i + 1]
    {
      ghost var g, i := Graph(), 0;
      var cur: Actor := start.holding;
      ghost var first := cur;
      ghost var n: nat :| Follow(g, first, n) == Some(target);
      ghost var m := FirstTime(g, first, target, n);
      trace := [cur];
      while cur != target
        invariant i <= m && Follow(g, first, i) == Some(cur) && cur in actors
        invariant |trace| == i + 1 && trace[0] == start.holding && trace[i] == cur
        invariant forall k :: 0 <= k < i ==> trace[k] in g && g[trace[k]] == trace[k + 1]
        decreases m - i
      {
        FollowPrefix(g, first, i, m);
        FollowAdd(g, first, i, 1);
        cur := cur.waiting.holding;
        trace := trace + [cur];
        i := i + 1;
      }
    }

    /** hangman_wait. */
    method Wait(a: Actor, l: Lockable) returns (r: Outcome)
      requires Valid() && a in actors && l in lockables
      modifies a
      ensures l == own ==> r == Fine && a.waiting == old(a.waiting)
      ensures l != own ==> (r == AlreadyWaiting <==> old(a.waiting) != null)
      ensures l != own && old(a.waiting) == null ==> (r == Deadlock <==> old(Leads(l, a)))
      ensures r == Fine || r == AlreadyWaiting || r == Deadlock
      ensures r == Fine ==> Valid() && (l != own ==> a.waiting == l)
      ensures r != Fine ==> a.waiting == old(a.waiting)
    {
      if l == own {
        return Fine;
      }
      if a.waiting != null {
        return AlreadyWaiting;
      }
      var found := Check(l, a);
      if found {
        var trace := Report(l, a);
        return Deadlock;
      }
      ghost var g := Graph();
      if l.holding != null {
        NewEdge<Actor>(g, a, l.holding);
      }
      a.waiting := l;
      assert l.holding == null ==> Graph() == g;
      assert l.holding != null ==> Graph() == g[a := l.holding];
      return Fine;
    }

    /** hangman_acquire. */
    method Acquire(a: Actor, l: Lockable) returns (r: Outcome)
      requires Valid() && a in actors && l in lockables
      modifies a, l
      ensures l == own ==> r == Fine && a.waiting == old(a.waiting) && l.holding == old(l.holding)
      ensures l != own ==> (r == NotWaitingForIt <==> old(a.waiting) != l)
      ensures l != own && old(a.waiting) == l ==> (r == StillHeld <==> old(l.holding) != null)
      ensures r == Fine || r == NotWaitingForIt || r == StillHeld
      ensures r == Fine ==> Valid() && (l != own ==> l.holding == a && a.waiting == null)
      ensures r != Fine ==> a.waiting == old(a.waiting) && l.holding == old(l.holding)
    {
      if l == own {
        return Fine;
      }
      if a.waiting != l {
        return NotWaitingForIt;
      }
      if l.holding != null {
        return StillHeld;
      }
      ghost var g := Graph();
      l.holding := a;
      a.waiting := null;
      NoNewCycle(g, Graph(), a);
      return Fine;
    }

    /** hangman_release. */
    method Release(a: Actor, l: Lockable) returns (r: Outcome)
      requires Valid() && a in actors && l in lockables
      modifies l
      ensures l == own ==> r == Fine && l.holding == old(l.holding)
      ensures l != own ==> (r == AlreadyWaiting <==> a.waiting != null)
      ensures l != own && a.waiting == null ==> (r == NotHolder <==> old(l.holding) != a)
      ensures r == Fine || r == AlreadyWaiting || r == NotHolder
      ensures r == Fine ==> Valid() && (l != own ==> l.holding == null)
      ensures r != Fine ==> l.holding == old(l.holding)
    {
      if l == own {
        return Fine;
      }
      if a.waiting != null {
        return AlreadyWaiting;
      }
      if l.holding != a {
        return NotHolder;
      }
      ghost var g := Graph();
      l.holding := null;
      NoNewCycle(g, Graph(), a);
      return Fine;
    }

    /** What waiting would do to the graph: the check reports a deadlock exactly when the wait would
        close a cycle in it. */
    lemma DeadlockIsCycle(a: Actor, l: Lockable)
      requires Valid() && a in actors && l in lockables && a.waiting == null
      ensures Leads(l, a) <==> l.holding != null && CycleIn<Actor>(Graph()[a := l.holding])
    {
      if l.holding != null {
        NewEdge<Actor>(Graph(), a, l.holding);
      }
    }
  }

  // ----- runs

  datatype Op = DoWait(a: Actor, l: Lockable) | DoAcquire(a: Actor, l: Lockable) | DoRelease(a: Actor, l: Lockable)

  /** What every actor waits for and who holds every lockable; or the panic the run ended in. */
  datatype State = State(waiting: map<Actor, Lockable?>, holding: map<Lockable, Actor?>) | Stopped(r: Outcome)

  ghost function GraphOf(s: State): map<Actor, Actor>
    requires s.State?
  {
    map a | a in s.waiting && s.waiting[a] != null && s.waiting[a] in s.holding && s.holding[s.waiting[a]] != null
      :: s.holding[s.waiting[a]]
  }

  ghost predicate NoDeadlock(s: State) {
    s.State? ==> !CycleIn<Actor>(GraphOf(s))
  }

  /** How the operation ends: a wait in a deadlock exactly when it closes a cycle. */
  ghost function Ends(s: State, own: Lockable, op: Op): Outcome
    requires s.State? && op.a in s.waiting && op.l in s.holding
  {
    var held, waits := s.holding[op.l], s.waiting[op.a];
    if op.l == own then
      Fine
    else
      match op
      case DoWait(a, l) =>
        if waits != null then AlreadyWaiting
        else if held != null && CycleIn<Actor>(GraphOf(s)[a := held]) then Deadlock
        else Fine
      case DoAcquire(a, l) => if waits != l then NotWaitingForIt else if held != null then StillHeld else Fine
      case DoRelease(a, l) => if waits != null then AlreadyWaiting else if held != a then NotHolder else Fine
  }

  ghost function Next(s: State, own: Lockable, op: Op): State {
    if s.Stopped? || op.a !in s.waiting || op.l !in s.holding then
      s
    else if Ends(s, own, op) != Fine then
      Stopped(Ends(s, own, op))
    else if op.l == own then
      s
    else
      match op
      case DoWait(a, l) => s.(waiting := s.waiting[a := l])
      case DoAcquire(a, l) => State(s.waiting[a := null], s.holding[l := a])
      case DoRelease(a, l) => s.(holding := s.holding[l := null])
  }

  ghost function Reached(s: State, own: Lockable, ops: seq<Op>): State {
    if ops == [] then s else Next(Reached(s, own, ops[..|ops| - 1]), own, ops[|ops| - 1])
  }

  lemma OneMore(s: State, own: Lockable, ops: seq<Op>, i: nat)
    requires i < |ops|
    ensures Reached(s, own, ops[..i + 1]) == Next(Reached(s, own, ops[..i]), own, ops[i])
  {
    assert ops[..i + 1][..i] == ops[..i];
  }

  /** hangman_wait as a step. */
  method TakeWait(d: Detector, a: Actor, l: Lockable) returns (r: Outcome)
    requires d.Valid() && a in d.actors && l in d.lockables
    modifies a
    ensures Next(old(d.Now()), d.own, DoWait(a, l)) == if r == Fine then d.Now() else Stopped(r)
    ensures r == Fine ==> d.Valid()
  {
    hide CycleIn, Reaches;
    if a.waiting == null {
      d.GraphIs();
      d.DeadlockIsCycle(a, l);
    }
    r := d.Wait(a, l);
  }

  /** hangman_acquire as a step. */
  method TakeAcquire(d: Detector, a: Actor, l: Lockable) returns (r: Outcome)
    requires d.Valid() && a in d.actors && l in d.lockables
    modifies a, l
    ensures Next(old(d.Now()), d.own, DoAcquire(a, l)) == if r == Fine then d.Now() else Stopped(r)
    ensures r == Fine ==> d.Valid()
  {
    hide CycleIn, Reaches;
    r := d.Acquire(a, l);
  }

  /** hangman_release as a step. */
  method TakeRelease(d: Detector, a: Actor, l: Lockable) returns (r: Outcome)
    requires d.Valid() && a in d.actors && l in d.lockables
    modifies l
    ensures Next(old(d.Now()), d.own, DoRelease(a, l)) == if r == Fine then d.Now() else Stopped(r)
    ensures r == Fine ==> d.Valid()
  {
    hide CycleIn, Reaches;
    r := d.Release(a, l);
  }

  /** Any sequence of operations by any actors on any lockables: up to the first panic the graph has no
      cycle in any state on the way. */
  method Run(d: Detector, ops: seq<Op>) returns (r: Outcome)
    requires d.Valid() && forall i :: 0 <= i < |ops| ==> ops[i].a in d.actors && ops[i].l in d.lockables
    modifies d.actors, d.lockables
    ensures Reached(old(d.Now()), d.own, ops) == if r == Fine then d.Now() else Stopped(r)
    ensures forall i :: 0 <= i <= |ops| ==> NoDeadlock(Reached(old(d.Now()), d.own, ops[..i]))
  {
    hide Next, CycleIn;
    ghost var was := d.Now();
    r := Fine;
    d.GraphIs();
    for i := 0 to |ops|
      invariant Reached(was, d.own, ops[..i]) == if r == Fine then d.Now() else Stopped(r)
      invariant r == Fine ==> d.Valid()
      invariant forall j :: 0 <= j <= i ==> NoDeadlock(Reached(was, d.own, ops[..j]))
    {
      OneMore(was, d.own, ops, i);
      if r == Fine {
        match ops[i] {
          case DoWait(a, l) => r := TakeWait(d, a, l);
          case DoAcquire(a, l) => r := TakeAcquire(d, a, l);
          case DoRelease(a, l) => r := TakeRelease(d, a, l);
        }
        if r == Fine {
          d.GraphIs();
        }
      } else {
        Over(r, d.own, ops[i]);
      }
    }
    assert ops[..|ops|] == ops;
  }

  lemma Over(r: Outcome, own: Lockable, op: Op)
    ensures Next(Stopped(r), own, op) == Stopped(r)
  {
  }
}
