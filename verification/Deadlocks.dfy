/** The deadlock detector inside the locks and spinlocks that call it: what it reports about them. */
module Deadlocks {
  import opened Options
  import opened Sequences
  import opened Hangman

  /** Where an actor is. A sleep lock goes from Looking to Outside in one critical section of its spinlock.
      A spinlock is Got from the test-and-set up to the hook, and Giving from the other hook up to the store
      that frees it. */
  datatype Pc = Outside | Looking(l: Lockable) | Asleep(l: Lockable) | Got(l: Lockable) | Giving(l: Lockable)

  /** The locks: those that spin, the detector's own one, and who is where. */
  datatype Locks = Locks(spin: set<Lockable>, own: Lockable, pc: map<Actor, Pc>,
                         owner: map<Lockable, Actor?>, sleepers: map<Lockable, seq<Actor>>)

  /** A call of an acquire function up to its loop; a turn of the loop; the hook after a test-and-set; a
      call of a release function; the store that frees a spinlock. */
  datatype Step =
    | Starts(a: Actor, lock: Lockable)
    | Tries(a: Actor)
    | Notes(a: Actor)
    | Releases(a: Actor, lock: Lockable)
    | Frees(a: Actor)

  /** How a step ends: done, against the lock's own assertion, or in a panic of the detector. */
  datatype End = Done | Asserts | Panics(o: Outcome)

  function WaitsFor(p: Pc): Lockable? {
    if p.Looking? || p.Asleep? || p.Got? then p.l else null
  }

  /** The lock whose owner the detector does not know, although there is one. */
  function Between(p: Pc): Lockable? {
    if p.Got? || p.Giving? then p.l else null
  }

  function Noted(s: Locks, l: Lockable): Actor?
    requires l in s.owner
  {
    var h := s.owner[l];
    if h != null && h in s.pc && Between(s.pc[h]) != l then h else null
  }

  /** What the detector has to know. */
  ghost function Hooks(s: Locks): State {
    State.State(map a | a in s.pc :: WaitsFor(s.pc[a]), map l | l in s.owner :: Noted(s, l))
  }

  ghost function Graph(s: Locks): map<Actor, Actor> {
    GraphOf(Hooks(s))
  }

  predicate AtLock(s: Locks, l: Lockable) {
    l in s.owner && l in s.sleepers && l != s.own
  }

  ghost predicate PcOk(s: Locks, a: Actor)
    requires a in s.pc
  {
    && (!s.pc[a].Outside? ==> AtLock(s, s.pc[a].l))
    && match s.pc[a]
       case Outside => true
       case Looking(l) => s.owner[l] != a
       case Asleep(l) => s.owner[l] != a && a in s.sleepers[l]
       case Got(l) => s.owner[l] == a && l in s.spin
       case Giving(l) => s.owner[l] == a && l in s.spin
  }

  ghost predicate SomeLooks(s: Locks, l: Lockable) {
    exists a :: a in s.pc && s.pc[a] == Looking(l)
  }

  ghost predicate LockOk(s: Locks, l: Lockable)
    requires l in s.owner && l in s.sleepers
  {
    && (s.owner[l] != null ==> s.owner[l] in s.pc && l != s.own)
    && (l in s.spin ==> s.sleepers[l] == [])
    && Distinct(s.sleepers[l])
    && (forall a :: a in s.sleepers[l] ==> a in s.pc && s.pc[a] == Asleep(l))
    && (s.owner[l] == null && s.sleepers[l] != [] ==> SomeLooks(s, l))
  }

  /** What every step keeps. */
  ghost predicate LocksOk(s: Locks) {
    && s.own in s.owner && s.owner.Keys == s.sleepers.Keys
    && (forall a :: a in s.pc ==> PcOk(s, a))
    && (forall l :: l in s.owner ==> LockOk(s, l))
  }

  predicate Enabled(s: Locks, e: Step) {
    && e.a in s.pc
    && match e
       case Starts(a, l) => s.pc[a].Outside? && AtLock(s, l)
       case Tries(a) => s.pc[a].Looking? && AtLock(s, s.pc[a].l)
       case Notes(a) => s.pc[a].Got? && AtLock(s, s.pc[a].l)
       case Releases(a, l) => s.pc[a].Outside? && AtLock(s, l)
       case Frees(a) => s.pc[a].Giving? && AtLock(s, s.pc[a].l)
  }

  /** The step is not against the lock's own assertion. */
  predicate Allowed(s: Locks, e: Step)
    requires Enabled(s, e)
  {
    match e
    case Starts(a, l) => s.owner[l] != a
    case Releases(a, l) => s.owner[l] == a
    case _ => true
  }

  /** What the lock functions do, without the detector. */
  function Moved(s: Locks, e: Step): Locks
    requires Enabled(s, e)
  {
    match e
    case Starts(a, l) => s.(pc := s.pc[a := Looking(l)])
    case Tries(a) =>
      var l := s.pc[a].l;
      if s.owner[l] == null then
        s.(owner := s.owner[l := a], pc := s.pc[a := if l in s.spin then Got(l) else Outside])
      else if l in s.spin then
        s
      else
        s.(sleepers := s.sleepers[l := s.sleepers[l] + [a]], pc := s.pc[a := Asleep(l)])
    case Notes(a) => s.(pc := s.pc[a := Outside])
    case Releases(a, l) =>
      if l in s.spin then
        s.(pc := s.pc[a := Giving(l)])
      else if s.sleepers[l] == [] then
        s.(owner := s.owner[l := null])
      else
        s.(owner := s.owner[l := null], sleepers := s.sleepers[l := s.sleepers[l][1..]],
           pc := s.pc[s.sleepers[l][0] := Looking(l)])
    case Frees(a) => s.(owner := s.owner[s.pc[a].l := null], pc := s.pc[a := Outside])
  }

  /** How the step ends with the detector: the only panic left is a wait that closes a cycle. */
  ghost function EndOf(s: Locks, e: Step): End
    requires Enabled(s, e)
  {
    if !Allowed(s, e) then Asserts
    else if e.Starts? && Noted(s, e.lock) != null && CycleIn<Actor>(Graph(s)[e.a := Noted(s, e.lock)])
      then Panics(Deadlock)
    else Done
  }

  lemma AtPc(s: Locks, a: Actor)
    requires LocksOk(s) && a in s.pc
    ensures PcOk(s, a)
  {
    hide PcOk, LockOk;
  }

  lemma AtItsLock(s: Locks, l: Lockable)
    requires LocksOk(s) && l in s.owner
    ensures l in s.sleepers && LockOk(s, l)
  {
    hide PcOk, LockOk;
  }

  /** The waking of the first sleeper. */
  lemma FirstSleeper(s: Locks, l: Lockable)
    requires LocksOk(s) && l in s.owner && l in s.sleepers && s.sleepers[l] != []
    ensures s.sleepers[l][0] in s.pc && s.pc[s.sleepers[l][0]] == Asleep(l) && s.sleepers[l][0] !in s.sleepers[l][1..]
  {
    hide LocksOk, PcOk, SomeLooks;
    AtItsLock(s, l);
  }

  lemma StepKeepsPc(s: Locks, e: Step, a: Actor)
    requires LocksOk(s) && Enabled(s, e) && Allowed(s, e) && a in Moved(s, e).pc
    ensures PcOk(Moved(s, e), a)
  {
    hide LocksOk, LockOk;
    AtPc(s, e.a);
    if e.Releases? && e.lock !in s.spin && s.sleepers[e.lock] != [] {
      FirstSleeper(s, e.lock);
    }
    assert a in s.pc;
    AtPc(s, a);
  }

  lemma StepKeepsLock(s: Locks, e: Step, l: Lockable)
    requires LocksOk(s) && Enabled(s, e) && Allowed(s, e) && l in s.owner
    ensures l in Moved(s, e).owner && l in Moved(s, e).sleepers && LockOk(Moved(s, e), l)
  {
    hide LocksOk;
    AtPc(s, e.a);
    AtItsLock(s, l);
    var s' := Moved(s, e);
    if e.Releases? && e.lock !in s.spin && s.sleepers[e.lock] != [] {
      FirstSleeper(s, e.lock);
      assert s'.pc[s.sleepers[e.lock][0]] == Looking(e.lock);
    }
    if SomeLooks(s, l) {
      var u :| u in s.pc && s.pc[u] == Looking(l);
      assert s'.owner[l] == null ==> s'.pc[u] == Looking(l);
    }
  }

  lemma StepKeeps(s: Locks, e: Step)
    requires LocksOk(s) && Enabled(s, e) && Allowed(s, e)
    ensures LocksOk(Moved(s, e))
  {
    hide PcOk, LockOk;
    forall a | a in Moved(s, e).pc ensures PcOk(Moved(s, e), a) { StepKeepsPc(s, e, a); }
    forall l | l in s.owner ensures LockOk(Moved(s, e), l) { StepKeepsLock(s, e, l); }
  }

  // ----- the hooks follow the locks

  ghost function Known(waiting: map<Actor, Lockable?>, holding: map<Lockable, Actor?>): State {
    State.State(waiting, holding)
  }

  lemma HooksStart(s: Locks, a: Actor, l: Lockable)
    requires LocksOk(s) && Enabled(s, Starts(a, l))
    ensures a in Hooks(s).waiting && Hooks(s).waiting[a] == null
    ensures l in Hooks(s).holding && Hooks(s).holding[l] == Noted(s, l)
    ensures Hooks(Moved(s, Starts(a, l))) == Known(Hooks(s).waiting[a := l], Hooks(s).holding)
  {
    hide LocksOk, LockOk;
  }

  lemma HooksTaken(s: Locks, e: Step, l: Lockable)
    requires LocksOk(s) && Enabled(s, e) && (e.Tries? || e.Notes?) && l == s.pc[e.a].l
    requires e.Tries? ==> s.owner[l] == null && l !in s.spin
    ensures Hooks(s).waiting[e.a] == l && Hooks(s).holding[l] == null
    ensures Hooks(Moved(s, e)) == Known(Hooks(s).waiting[e.a := null], Hooks(s).holding[l := e.a])
  {
    hide LocksOk, LockOk;
    AtPc(s, e.a);
    forall k | k in s.owner
      ensures Noted(Moved(s, e), k) == if k == l then e.a else Noted(s, k)
    {
    }
  }

  lemma HooksReleased(s: Locks, a: Actor, l: Lockable)
    requires LocksOk(s) && Enabled(s, Releases(a, l)) && Allowed(s, Releases(a, l))
    ensures Hooks(s).waiting[a] == null && Hooks(s).holding[l] == a
    ensures Hooks(Moved(s, Releases(a, l))) == Known(Hooks(s).waiting, Hooks(s).holding[l := null])
  {
    hide LocksOk, LockOk;
    AtItsLock(s, l);
    if s.sleepers[l] != [] {
      FirstSleeper(s, l);
    }
  }

  lemma HooksStay(s: Locks, e: Step)
    requires LocksOk(s) && Enabled(s, e)
    requires (e.Tries? && (s.owner[s.pc[e.a].l] != null || s.pc[e.a].l in s.spin)) || e.Frees?
    ensures Hooks(Moved(s, e)) == Hooks(s)
  {
    hide LocksOk, LockOk;
    AtPc(s, e.a);
  }

  // ----- what a deadlock is

  /** The actors of c wait for locks that actors of c have. */
  ghost predicate Doomed(s: Locks, c: set<Actor>) {
    c != {} && forall a :: a in c ==> StuckIn(s, c, a)
  }

  ghost predicate StuckIn(s: Locks, c: set<Actor>, a: Actor) {
    && a in s.pc && (s.pc[a].Looking? || s.pc[a].Asleep?)
    && s.pc[a].l in s.owner && s.owner[s.pc[a].l] in c
  }

  /** Without the detector they wait whatever anybody does. */
  lemma DoomedStays(s: Locks, c: set<Actor>, e: Step)
    requires LocksOk(s) && Enabled(s, e) && Allowed(s, e) && Doomed(s, c)
    ensures Doomed(Moved(s, e), c)
  {
    hide LocksOk, LockOk;
    forall a | a in c
      ensures StuckIn(Moved(s, e), c, a)
    {
      assert StuckIn(s, c, a);
      AtPc(s, a);
      AtPc(s, e.a);
      assert StuckIn(s, c, s.owner[s.pc[a].l]);
      if e.Releases? && s.sleepers[e.lock] != [] {
        FirstSleeper(s, e.lock);
      }
    }
  }

  /** The steps one after the other without the detector; a step that cannot be taken, or is against an
      assertion, is passed over. */
  function Unwatched(s: Locks, steps: seq<Step>): Locks
    decreases |steps|
  {
    if steps == [] then s
    else Unwatched(if Enabled(s, steps[0]) && Allowed(s, steps[0]) then Moved(s, steps[0]) else s, steps[1..])
  }

  lemma {:induction false} DoomedForever(s: Locks, c: set<Actor>, steps: seq<Step>)
    requires LocksOk(s) && Doomed(s, c)
    ensures Doomed(Unwatched(s, steps), c)
    decreases |steps|
  {
    hide LocksOk, Doomed, Moved, Enabled, Allowed;
    if steps != [] {
      if Enabled(s, steps[0]) && Allowed(s, steps[0]) {
        StepKeeps(s, steps[0]);
        DoomedStays(s, c, steps[0]);
        DoomedForever(Moved(s, steps[0]), c, steps[1..]);
      } else {
        DoomedForever(s, c, steps[1..]);
      }
    }
  }

  lemma EdgeIs(s: Locks, a: Actor)
    requires LocksOk(s) && a in Graph(s)
    ensures a in s.pc && (s.pc[a].Looking? || s.pc[a].Asleep?) && s.pc[a].l in s.owner
    ensures Graph(s)[a] in s.pc && s.owner[s.pc[a].l] == Graph(s)[a]
  {
    hide LocksOk;
    AtPc(s, a);
    AtItsLock(s, s.pc[a].l);
  }

  /** From a node of a cycle the next one is on it too. */
  lemma AroundTheCycle<T>(g: map<T, T>, x: T, n: nat, y: T)
    requires x in g && n > 0 && Follow(g, x, n) == Some(x) && Reaches(g, x, y) && Reaches(g, y, x)
    ensures y in g && Reaches(g, x, g[y]) && Reaches(g, g[y], x)
  {
    var i: nat :| Follow(g, x, i) == Some(y);
    var j: nat :| Follow(g, y, j) == Some(x);
    FollowAdd(g, x, i, 1);
    assert Follow(g, y, 1) == Some(g[y]);
    assert Follow(g, g[y], if j == 0 then n - 1 else j - 1) == Some(x);
  }

  lemma CycleDooms(s: Locks)
    requires LocksOk(s) && CycleIn<Actor>(Graph(s))
    ensures exists c :: Doomed(s, c)
  {
    hide LocksOk, Hooks, GraphOf, Reaches;
    var g := Graph(s);
    var x, n: nat :| x in g && n > 0 && Follow(g, x, n) == Some(x);
    var c := set y | y in s.pc && Reaches(g, x, y) && Reaches(g, y, x);
    ReachesItself(g, x);
    forall y | y in c
      ensures StuckIn(s, c, y)
    {
      AroundTheCycle(g, x, n, y);
      EdgeIs(s, y);
    }
    EdgeIs(s, x);
    assert x in c;
    assert Doomed(s, c);
  }

  lemma ReachesItself<T>(g: map<T, T>, x: T)
    ensures Reaches(g, x, x)
  {
    assert Follow(g, x, 0) == Some(x);
  }

  lemma {:induction false} WalkInside(s: Locks, c: set<Actor>, a: Actor, n: nat)
    requires LocksOk(s) && Doomed(s, c) && a in c
    ensures Follow(Graph(s), a, n).Some?
  {
    hide LocksOk, LockOk;
    if n > 0 {
      assert StuckIn(s, c, a);
      AtPc(s, a);
      var b: Actor := s.owner[s.pc[a].l];
      assert StuckIn(s, c, b);
      assert a in Graph(s) && Graph(s)[a] == b;
      WalkInside(s, c, b, n - 1);
    }
  }

  /** Some actors wait for each other exactly when the graph has a cycle. */
  lemma DoomedIffCycle(s: Locks)
    requires LocksOk(s)
    ensures CycleIn<Actor>(Graph(s)) <==> exists c :: Doomed(s, c)
  {
    if CycleIn<Actor>(Graph(s)) {
      CycleDooms(s);
    } else if exists c :: Doomed(s, c) {
      var c :| Doomed(s, c);
      var a :| a in c;
      WalkInside(s, c, a, |Graph(s).Keys| + 1);
      WalkEnds(Graph(s), a, |Graph(s).Keys| + 1);
    }
  }

  /** A call is reported exactly when with its wait some actors wait for each other. */
  lemma ReportedIffDoomed(s: Locks, a: Actor, l: Lockable)
    requires LocksOk(s) && !CycleIn<Actor>(Graph(s)) && Enabled(s, Starts(a, l)) && Allowed(s, Starts(a, l))
    ensures EndOf(s, Starts(a, l)) == Panics(Deadlock) <==> exists c :: Doomed(Moved(s, Starts(a, l)), c)
  {
    hide CycleIn, Doomed, Follow, LocksOk, Hooks;
    var s' := Moved(s, Starts(a, l));
    StepKeeps(s, Starts(a, l));
    DoomedIffCycle(s');
    HooksStart(s, a, l);
    var h := Noted(s, l);
    assert Graph(s') == if h != null then Graph(s)[a := h] else Graph(s);
  }

  /** No report is false, and none is missing: a call is reported exactly when with its wait some actors
      wait forever, whatever anybody does. */
  lemma ReportedIffForever(s: Locks, a: Actor, l: Lockable)
    requires LocksOk(s) && !CycleIn<Actor>(Graph(s)) && Enabled(s, Starts(a, l)) && Allowed(s, Starts(a, l))
    ensures EndOf(s, Starts(a, l)) == Panics(Deadlock) <==>
            exists c :: Doomed(Moved(s, Starts(a, l)), c)
                        && forall steps :: Doomed(Unwatched(Moved(s, Starts(a, l)), steps), c)
  {
    hide CycleIn, Doomed, LocksOk, Graph, Enabled, Allowed, EndOf, Moved;
    var s' := Moved(s, Starts(a, l));
    ReportedIffDoomed(s, a, l);
    StepKeeps(s, Starts(a, l));
    forall c, steps | Doomed(s', c)
      ensures Doomed(Unwatched(s', steps), c)
    {
      DoomedForever(s', c, steps);
    }
  }

  // ----- while nothing is reported

  /** The step gets an actor in a call further: it has the lock it looks for, or is done with it. */
  ghost predicate Further(s: Locks, u: Actor, e: Step) {
    && u in s.pc && e.a == u && Enabled(s, e) && EndOf(s, e) == Done
    && match s.pc[u]
       case Looking(l) =>
         && l in s.owner && l in Moved(s, e).owner && Moved(s, e).owner[l] == u
         && Moved(s, e).pc[u] == if l in s.spin then Got(l) else Outside
       case Got(l) => Moved(s, e).pc[u] == Outside && l in s.owner && Moved(s, e).owner == s.owner
       case Giving(l) => Moved(s, e).pc[u] == Outside && l in Moved(s, e).owner && Moved(s, e).owner[l] == null
       case _ => false
  }

  /** The actor is in no call, or has a step that gets it further. */
  ghost predicate CanGo(s: Locks, u: Actor) {
    u in s.pc && (s.pc[u].Outside? || Further(s, u, OwnStep(s.pc[u], u)))
  }

  function OwnStep(p: Pc, u: Actor): Step {
    if p.Got? then Notes(u) else if p.Giving? then Frees(u) else Tries(u)
  }

  lemma NextStep(s: Locks, u: Actor)
    requires LocksOk(s) && u in s.pc
    ensures s.pc[u].Got? || s.pc[u].Giving? || (s.pc[u].Looking? && s.pc[u].l in s.owner && s.owner[s.pc[u].l] == null)
            ==> CanGo(s, u)
  {
    hide LocksOk;
    AtPc(s, u);
  }

  lemma {:induction false} EndOfWalk<T>(g: map<T, T>, x: T, n: nat) returns (y: T)
    requires !CycleIn(g) && Follow(g, x, n).Some?
    ensures Reaches(g, x, y) && y !in g
    decreases |g.Keys| + 1 - n
  {
    WalkEnds(g, x, n);
    y := Follow(g, x, n).value;
    if y in g {
      FollowAdd(g, x, n, 1);
      assert Follow(g, y, 1) == Some(g[y]);
      WalkEnds(g, x, n + 1);
      y := EndOfWalk(g, x, n + 1);
    }
  }

  lemma {:induction false} WalkStays(s: Locks, a: Actor, n: nat)
    requires LocksOk(s) && a in s.pc
    ensures Follow(Graph(s), a, n).Some? ==> Follow(Graph(s), a, n).value in s.pc
  {
    hide LocksOk, Hooks, GraphOf;
    if n > 0 && a in Graph(s) {
      EdgeIs(s, a);
      WalkStays(s, Graph(s)[a], n - 1);
    }
  }

  /** Who waits is waiting, over any number of owners, for an actor that can go on, or for a lock that another
      one is taking or giving. */
  lemma SomeoneCanGo(s: Locks, a: Actor) returns (b: Actor, u: Actor)
    requires LocksOk(s) && !CycleIn<Actor>(Graph(s)) && a in s.pc
    ensures Reaches<Actor>(Graph(s), a, b) && b in s.pc && CanGo(s, u)
    ensures u == b || (WaitsFor(s.pc[b]) != null
                       && (Between(s.pc[u]) == WaitsFor(s.pc[b]) || s.pc[u] == Looking(WaitsFor(s.pc[b]))))
  {
    hide LocksOk, CycleIn, Further;
    b := EndOfWalk(Graph(s), a, 0);
    var n: nat :| Follow(Graph(s), a, n) == Some(b);
    WalkStays(s, a, n);
    u := b;
    NextStep(s, b);
    if !CanGo(s, b) {
      var l: Lockable := s.pc[b].l;
      AtPc(s, b);
      AtItsLock(s, l);
      if s.owner[l] != null {
        u := s.owner[l];
        AtPc(s, u);
      } else {
        u :| u in s.pc && s.pc[u] == Looking(l);
      }
      NextStep(s, u);
    }
  }

  // ----- the functions with the hooks in them

  class LockTable {
    const det: Detector
    const spin: set<Lockable>
    var pc: map<Actor, Pc>
    var owner: map<Lockable, Actor?>
    var sleepers: map<Lockable, seq<Actor>>

    function Now(): Locks reads this {
      Locks(spin, det.own, pc, owner, sleepers)
    }

    /** The locks are in order, the detector knows about them, and the waits-for graph has no cycle. */
    ghost predicate Valid()
      reads this, det, det.actors, det.lockables
    {
      det.Valid() && LocksOk(Now()) && det.Now() == Hooks(Now())
    }

    constructor (det: Detector, spin: set<Lockable>, actors: set<Actor>, lockables: set<Lockable>)
      requires det.Valid() && det.actors == actors && det.lockables == lockables
      requires (forall a :: a in actors ==> a.waiting == null) && (forall l :: l in lockables ==> l.holding == null)
      ensures Valid() && this.det == det && this.spin == spin
      ensures pc == (map a | a in actors :: Outside) && owner == (map l | l in lockables :: null)
      ensures sleepers == map l | l in lockables :: []
    {
      hide CycleIn, LocksOk, Graph;
      this.det, this.spin := det, spin;
      pc := map a | a in actors :: Outside;
      owner := map l | l in lockables :: null;
      sleepers := map l | l in lockables :: [];
      AllFree(spin, det.own, actors, lockables);
    }

    static lemma AllFree(spin: set<Lockable>, own: Lockable, actors: set<Actor>, lockables: set<Lockable>)
      requires own in lockables
      ensures LocksOk(Locks(spin, own, map a | a in actors :: Outside, map l | l in lockables :: null,
                            map l | l in lockables :: []))
    {
    }

    lemma NoCycle()
      requires Valid()
      ensures !CycleIn<Actor>(Graph(Now()))
    {
      det.GraphIs();
    }

    lemma IsKnown(a: Actor, l: Lockable)
      requires Valid() && a in pc && l in owner
      ensures a in det.actors && l in det.lockables
    {
      assert a in det.Now().waiting && l in det.Now().holding;
    }

    /** lock_acquire and spinlock_acquire up to the loop. */
    method Start(a: Actor, l: Lockable) returns (r: End)
      requires Valid() && a in pc && pc[a].Outside? && l in owner && l in sleepers && l != det.own
      modifies this`pc, a
      ensures r == EndOf(old(Now()), Starts(a, l))
      ensures if r == Done then Valid() && Now() == Moved(old(Now()), Starts(a, l)) else Now() == old(Now())
      ensures r == Asserts <==> owner[l] == a
      ensures pc == if r == Done then old(pc)[a := Looking(l)] else old(pc)
    {
      hide CycleIn, LocksOk, Hooks, PcOk, LockOk, GraphOf;
      if owner[l] == a {
        return Asserts;
      }
      IsKnown(a, l);
      HooksStart(Now(), a, l);
      StepKeeps(Now(), Starts(a, l));
      var o := TakeWait(det, a, l);
      if o != Fine {
        return Panics(o);
      }
      pc := pc[a := Looking(l)];
      return Done;
    }

    /** A turn of the loop of either function. A sleep lock is taken and noted at once. */
    method Try(a: Actor) returns (r: End)
      requires Valid() && a in pc && pc[a].Looking? && Enabled(Now(), Tries(a))
      modifies this, a, pc[a].l
      ensures r == Done && Valid() && Now() == Moved(old(Now()), Tries(a))
      ensures old(owner[pc[a].l]) == null ==>
                owner == old(owner)[old(pc[a].l) := a] && sleepers == old(sleepers)
                && pc == old(pc)[a := if old(pc[a].l) in spin then Got(old(pc[a].l)) else Outside]
      ensures old(owner[pc[a].l]) != null && old(pc[a].l) in spin ==>
                owner == old(owner) && sleepers == old(sleepers) && pc == old(pc)
      ensures old(owner[pc[a].l]) != null && old(pc[a].l) !in spin ==>
                owner == old(owner) && pc == old(pc)[a := Asleep(old(pc[a].l))]
                && sleepers == old(sleepers)[old(pc[a].l) := old(sleepers[pc[a].l]) + [a]]
    {
      hide CycleIn, LocksOk, Hooks, PcOk, LockOk, GraphOf;
      var l := pc[a].l;
      IsKnown(a, l);
      StepKeeps(Now(), Tries(a));
      if owner[l] != null && l !in spin {
        HooksStay(Now(), Tries(a));
        sleepers := sleepers[l := sleepers[l] + [a]];
        pc := pc[a := Asleep(l)];
      } else if owner[l] == null && l in spin {
        HooksStay(Now(), Tries(a));
        owner := owner[l := a];
        pc := pc[a := Got(l)];
      } else if owner[l] == null {
        HooksTaken(Now(), Tries(a), l);
        owner := owner[l := a];
        pc := pc[a := Outside];
        var o := TakeAcquire(det, a, l);
        if o != Fine {
          return Panics(o);
        }
      }
      return Done;
    }

    /** The hook after the test-and-set of spinlock_acquire. */
    method Note(a: Actor) returns (r: End)
      requires Valid() && a in pc && pc[a].Got? && Enabled(Now(), Notes(a))
      modifies this`pc, a, pc[a].l
      ensures r == Done && Valid() && Now() == Moved(old(Now()), Notes(a)) && pc == old(pc)[a := Outside]
    {
      hide CycleIn, LocksOk, Hooks, PcOk, LockOk, GraphOf;
      var l := pc[a].l;
      IsKnown(a, l);
      HooksTaken(Now(), Notes(a), l);
      StepKeeps(Now(), Notes(a));
      var o := TakeAcquire(det, a, l);
      if o != Fine {
        return Panics(o);
      }
      pc := pc[a := Outside];
      return Done;
    }

    /** lock_release, and spinlock_release up to the store that frees the lock. */
    method Release(a: Actor, l: Lockable) returns (r: End)
      requires Valid() && a in pc && pc[a].Outside? && l in owner && l in sleepers && l != det.own
      modifies this, l
      ensures r == EndOf(old(Now()), Releases(a, l))
      ensures if r == Done then Valid() && Now() == Moved(old(Now()), Releases(a, l)) else Now() == old(Now())
      ensures r == if old(owner[l]) == a then Done else Asserts
      ensures r == Done && l in spin ==> owner == old(owner) && sleepers == old(sleepers) && pc == old(pc)[a := Giving(l)]
      ensures r == Done && l !in spin ==> owner == old(owner)[l := null]
      ensures r == Done && l !in spin && old(sleepers[l]) == [] ==> sleepers == old(sleepers) && pc == old(pc)
      ensures r == Done && l !in spin && old(sleepers[l]) != [] ==>
                sleepers == old(sleepers)[l := old(sleepers[l])[1..]] && pc == old(pc)[old(sleepers[l])[0] := Looking(l)]
    {
      hide CycleIn, LocksOk, Hooks, PcOk, LockOk, GraphOf;
      if owner[l] != a {
        return Asserts;
      }
      IsKnown(a, l);
      HooksReleased(Now(), a, l);
      StepKeeps(Now(), Releases(a, l));
      if l in spin {
        pc := pc[a := Giving(l)];
      } else {
        owner := owner[l := null];
        if sleepers[l] != [] {
          FirstSleeper(old(Now()), l);
          pc := pc[sleepers[l][0] := Looking(l)];
          sleepers := sleepers[l := sleepers[l][1..]];
        }
      }
      var o := TakeRelease(det, a, l);
      if o != Fine {
        return Panics(o);
      }
      return Done;
    }

    /** The rest of spinlock_release. */
    method Free(a: Actor) returns (r: End)
      requires Valid() && a in pc && pc[a].Giving? && Enabled(Now(), Frees(a))
      modifies this
      ensures r == Done && Valid() && Now() == Moved(old(Now()), Frees(a))
      ensures owner == old(owner)[old(pc[a].l) := null] && pc == old(pc)[a := Outside] && sleepers == old(sleepers)
    {
      hide CycleIn, LocksOk, Hooks, PcOk, LockOk, GraphOf;
      HooksStay(Now(), Frees(a));
      StepKeeps(Now(), Frees(a));
      owner := owner[pc[a].l := null];
      pc := pc[a := Outside];
      return Done;
    }
  }

  // ----- runs

  datatype Status = At(s: Locks) | Ended(r: End)

  /** A step that cannot be taken is passed over. */
  ghost function Next(st: Status, e: Step): Status {
    if st.Ended? || !Enabled(st.s, e) then st
    else if EndOf(st.s, e) == Done then At(Moved(st.s, e))
    else Ended(EndOf(st.s, e))
  }

  ghost function Reached(s: Locks, steps: seq<Step>): Status {
    if steps == [] then At(s) else Next(Reached(s, steps[..|steps| - 1]), steps[|steps| - 1])
  }

  lemma OneMoreStep(s: Locks, steps: seq<Step>, i: nat)
    requires i < |steps|
    ensures Reached(s, steps[..i + 1]) == Next(Reached(s, steps[..i]), steps[i])
  {
    assert steps[..i + 1][..i] == steps[..i];
  }

  method Take(k: LockTable, e: Step) returns (r: End)
    requires k.Valid() && Enabled(k.Now(), e)
    modifies k, k.det.actors, k.det.lockables
    ensures r == EndOf(old(k.Now()), e)
    ensures r == Done ==> k.Valid() && k.Now() == Moved(old(k.Now()), e)
  {
    hide CycleIn, LocksOk, Hooks, PcOk, LockOk, GraphOf, Moved;
    match e
    case Starts(a, l) => k.IsKnown(a, l); r := k.Start(a, l);
    case Tries(a) => k.IsKnown(a, k.pc[a].l); r := k.Try(a);
    case Notes(a) => k.IsKnown(a, k.pc[a].l); r := k.Note(a);
    case Releases(a, l) => k.IsKnown(a, l); r := k.Release(a, l);
    case Frees(a) => r := k.Free(a);
  }

  /** Any actors at any sleep locks and spinlocks, their steps in any order: until a lock's own assertion
      fails or a deadlock is reported no state has a deadlock, and the detector stops for nothing else. */
  method Run(k: LockTable, steps: seq<Step>) returns (r: End)
    requires k.Valid()
    modifies k, k.det.actors, k.det.lockables
    ensures Reached(old(k.Now()), steps) == if r == Done then At(k.Now()) else Ended(r)
    ensures r == Done || r == Asserts || r == Panics(Deadlock)
    ensures forall i :: 0 <= i <= |steps| ==> Sound(Reached(old(k.Now()), steps[..i]))
  {
    hide CycleIn, LocksOk, Hooks, GraphOf, Moved, Enabled;
    ghost var was := k.Now();
    r := Done;
    k.NoCycle();
    for i := 0 to |steps|
      invariant Reached(was, steps[..i]) == if r == Done then At(k.Now()) else Ended(r)
      invariant r == Done || r == Asserts || r == Panics(Deadlock)
      invariant r == Done ==> k.Valid()
      invariant forall j :: 0 <= j <= i ==> Sound(Reached(was, steps[..j]))
    {
      OneMoreStep(was, steps, i);
      if r == Done && Enabled(k.Now(), steps[i]) {
        r := Take(k, steps[i]);
        if r == Done {
          k.NoCycle();
        }
      }
    }
    assert steps[..|steps|] == steps;
  }

  ghost predicate Sound(st: Status) {
    st.At? ==> LocksOk(st.s) && !CycleIn<Actor>(Graph(st.s))
  }
}
