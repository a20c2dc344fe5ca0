/** synch.c. What a thread does under a spinlock is one step: going to sleep puts it on the channel
    before the spinlock is free, so nothing can come between. */
module Synch {
  import opened Sequences

  type tid = nat

  const WORD: nat := 0x1_0000_0000

  // ----- semaphores

  class Semaphore {
    var count: nat
    var sleepers: seq<tid>
    /** Threads taken off the channel that have not looked at the count again. */
    var woken: set<tid>
    /** Calls of P and V that went through, and the count sem_create was given. */
    ghost var downs: nat
    ghost var ups: nat
    const initial: nat

    ghost function Now(): SemState reads this {
      Sem(count, sleepers, woken, downs, ups)
    }

    ghost predicate Valid() reads this {
      SemOk(Now(), initial)
    }

    constructor (initialCount: nat)
      requires initialCount < WORD
      ensures Valid() && count == initialCount && sleepers == [] && woken == {} && downs == ups == 0
    {
      count, sleepers, woken := initialCount, [], {};
      downs, ups, initial := 0, 0, initialCount;
    }

    /** One turn of the loop in P, on entry or after a wakeup: get through, or sleep. */
    method TryP(t: tid) returns (done: bool)
      requires Valid() && t !in sleepers
      modifies this
      ensures Valid() && woken == old(woken) - {t} && done == (old(count) > 0)
      ensures done ==> count == old(count) - 1 && sleepers == old(sleepers) && downs == old(downs) + 1
      ensures !done ==> count == old(count) == 0 && sleepers == old(sleepers) + [t] && downs == old(downs)
      ensures ups == old(ups)
    {
      SetLess(woken, t);
      woken := woken - {t};
      if count == 0 {
        sleepers := sleepers + [t];
        return false;
      }
      count := count - 1;
      downs := downs + 1;
      return true;
    }

    /** V: it fails its assertion exactly when the count wraps around; otherwise the first sleeper, if
        any, is woken. */
    method V() returns (ok: bool)
      requires Valid()
      modifies this
      ensures ok == (old(count) + 1 < WORD)
      ensures ok ==> Valid() && count == old(count) + 1 && ups == old(ups) + 1 && downs == old(downs)
      ensures ok && old(sleepers) == [] ==> sleepers == [] && woken == old(woken)
      ensures ok && old(sleepers) != [] ==> sleepers == old(sleepers)[1..] && woken == old(woken) + {old(sleepers)[0]}
    {
      count := (count + 1) % WORD;
      if !(count > 0) {
        return false;
      }
      ups := ups + 1;
      if sleepers != [] {
        woken, sleepers := woken + {sleepers[0]}, sleepers[1..];
      }
      return true;
    }
  }

  /** What any thread may do to a semaphore. */
  datatype SemStep = DoP(t: tid) | DoV

  datatype SemState = Sem(count: nat, sleepers: seq<tid>, woken: set<tid>, downs: nat, ups: nat) | Panic

  /** No wakeup is lost: with sleepers, the count never exceeds the woken threads that are still to
      look at it, so a positive count always has a taker. No unit is lost or made up either. */
  ghost predicate SemOk(s: SemState, initial: nat) {
    s.Sem? ==>
      && s.count < WORD && s.count + s.downs == initial + s.ups
      && Distinct(s.sleepers) && (forall t :: t in s.sleepers ==> t !in s.woken)
      && (s.sleepers != [] ==> s.count <= |s.woken|)
  }

  /** What the step does; a thread that is asleep takes none. */
  function SemNext(s: SemState, e: SemStep): SemState {
    if s.Panic? || (e.DoP? && e.t in s.sleepers) then
      s
    else if e.DoP? then
      if s.count == 0 then s.(sleepers := s.sleepers + [e.t], woken := s.woken - {e.t})
      else s.(count := s.count - 1, woken := s.woken - {e.t}, downs := s.downs + 1)
    else if s.count + 1 >= WORD then
      Panic
    else if s.sleepers == [] then
      s.(count := s.count + 1, ups := s.ups + 1)
    else
      Sem(s.count + 1, s.sleepers[1..], s.woken + {s.sleepers[0]}, s.downs, s.ups + 1)
  }

  function SemReached(s: SemState, steps: seq<SemStep>): SemState {
    if steps == [] then s else SemNext(SemReached(s, steps[..|steps| - 1]), steps[|steps| - 1])
  }

  lemma OneMoreSem(s: SemState, steps: seq<SemStep>, i: nat)
    requires i < |steps|
    ensures SemReached(s, steps[..i + 1]) == SemNext(SemReached(s, steps[..i]), steps[i])
  {
    assert steps[..i + 1][..i] == steps[..i];
  }

  /** In every state of every interleaving no unit and no wakeup is lost, up to a V that panics. */
  method RunSemaphore(s: Semaphore, steps: seq<SemStep>) returns (panicked: bool)
    requires s.Valid()
    modifies s
    ensures SemReached(old(s.Now()), steps) == if panicked then Panic else s.Now()
    ensures forall i :: 0 <= i <= |steps| ==> SemOk(SemReached(old(s.Now()), steps[..i]), s.initial)
  {
    hide SemNext, SemOk;
    ghost var was := s.Now();
    panicked := false;
    NeverMind(s.initial);
    for i := 0 to |steps|
      invariant SemReached(was, steps[..i]) == if panicked then Panic else s.Now()
      invariant panicked || s.Valid()
      invariant forall j :: 0 <= j <= i ==> SemOk(SemReached(was, steps[..j]), s.initial)
    {
      OneMoreSem(was, steps, i);
      if panicked || (steps[i].DoP? && steps[i].t in s.sleepers) {
        SemStays(SemReached(was, steps[..i]), steps[i]);
      } else {
        panicked := TakeSem(s, steps[i]);
      }
    }
    assert steps[..|steps|] == steps;
  }

  /** One thread's step, or its panic. */
  method TakeSem(s: Semaphore, e: SemStep) returns (panicked: bool)
    requires s.Valid() && (e.DoP? ==> e.t !in s.sleepers)
    modifies s
    ensures SemNext(old(s.Now()), e) == if panicked then Panic else s.Now()
    ensures panicked || s.Valid()
  {
    hide SemOk;
    panicked := false;
    match e {
      case DoP(t) => var done := s.TryP(t);
      case DoV =>
        var ok := s.V();
        panicked := !ok;
    }
  }

  lemma SemStays(s: SemState, e: SemStep)
    requires s.Panic? || (e.DoP? && e.t in s.sleepers)
    ensures SemNext(s, e) == s
  {
  }

  lemma NeverMind(initial: nat)
    ensures SemOk(Panic, initial)
  {
  }

  lemma SetLess(s: set<tid>, t: tid)
    ensures |s - {t}| == |s| - if t in s then 1 else 0
  {
    if t in s {
      assert s == s - {t} + {t};
    } else {
      assert s - {t} == s;
    }
  }

  // ----- locks and condition variables

  /** Where a thread is in the operations on the lock and its condition variables. */
  datatype Pc =
    | Out                    // in none of them, and not holding the lock
    | Acquiring              // in lock_acquire, about to look at the lock
    | LockAsleep             // on the lock's channel
    | LockWoken              // taken off it, about to look again
    | Holding                // has the lock, and is in no operation
    | WaitSpin(cv: nat)      // in cv_wait with the cv's spinlock, before lock_release
    | WaitReleased(cv: nat)  // after lock_release
    | CvAsleep(cv: nat)      // on the cv's channel
    | CvWoken(cv: nat)       // taken off it

  datatype Owner = None | By(t: tid)

  datatype Cv = Cv(spin: Owner, queue: seq<tid>)

  predicate HoldsLock(pc: Pc) {
    pc.Holding? || pc.WaitSpin?
  }

  /** The lock is available exactly when nobody holds it, and the holder is the one thread that got it. */
  ghost predicate HolderOk(available: bool, holder: Owner, pc: map<tid, Pc>) {
    && (available <==> holder == None) && (holder.By? ==> holder.t in pc)
    && forall t :: t in pc ==> (HoldsLock(pc[t]) <==> holder == By(t))
  }

  /** No wakeup is lost: if the lock is available while threads sleep on it, one that was woken has yet
      to look again. */
  ghost predicate LockQueueOk(available: bool, lockq: seq<tid>, pc: map<tid, Pc>) {
    && Distinct(lockq) && (forall t :: t in lockq <==> t in pc && pc[t] == LockAsleep)
    && (available && lockq != [] ==> exists t :: t in pc && pc[t] == LockWoken)
  }

  /** A cv's channel holds the threads asleep on it; its spinlock is held from before the lock is
      released until the thread is on the channel. */
  ghost predicate CvOk(cv: nat, c: Cv, pc: map<tid, Pc>) {
    && Distinct(c.queue) && (forall t :: t in c.queue <==> t in pc && pc[t] == CvAsleep(cv))
    && (c.spin.By? ==> c.spin.t in pc)
    && (forall t :: t in pc ==> (pc[t] == WaitSpin(cv) || pc[t] == WaitReleased(cv) <==> c.spin == By(t)))
  }

  ghost predicate CvsOk(cvs: map<nat, Cv>, pc: map<tid, Pc>) {
    && (forall cv :: cv in cvs ==> CvOk(cv, cvs[cv], pc))
    && (forall t :: t in pc && (pc[t].WaitSpin? || pc[t].WaitReleased? || pc[t].CvAsleep? || pc[t].CvWoken?) ==>
          pc[t].cv in cvs)
  }

  /** One lock, the condition variables used with it, and the threads that use them. */
  class Monitor {
    var available: bool
    var holder: Owner
    var lockq: seq<tid>
    var cvs: map<nat, Cv>
    var pc: map<tid, Pc>

    function Now(): MonState reads this {
      Mon(available, holder, lockq, cvs, pc)
    }

    ghost predicate Valid() reads this {
      MonOk(Now())
    }

    constructor (threads: set<tid>, conditions: set<nat>)
      ensures Valid() && available && lockq == []
      ensures pc.Keys == threads && forall t :: t in pc ==> pc[t] == Out
      ensures cvs.Keys == conditions && forall cv :: cv in cvs ==> cvs[cv] == Cv(None, [])
    {
      available, holder, lockq := true, None, [];
      cvs := map cv | cv in conditions :: Cv(None, []);
      pc := map t | t in threads :: Out;
    }

    /** At most one thread has the lock. */
    lemma MutualExclusion(t: tid, u: tid)
      requires Valid() && t in pc && u in pc && HoldsLock(pc[t]) && HoldsLock(pc[u])
      ensures t == u && !available
    {
    }

    /** When a thread can signal or broadcast, every thread that has released the lock in cv_wait and
        was not woken since is on the channel already. */
    lemma WaitersAreThere(cv: nat, t: tid)
      requires Valid() && cv in cvs && cvs[cv].spin == None && t in pc
      ensures pc[t] != WaitReleased(cv) && pc[t] != WaitSpin(cv)
      ensures pc[t] == CvAsleep(cv) <==> t in cvs[cv].queue
    {
      assert CvOk(cv, cvs[cv], pc);
    }

    method StartAcquire(t: tid)
      requires Valid() && t in pc && pc[t] == Out
      modifies this`pc
      ensures Now() == MonNext(old(Now()), Starts(t))
      ensures Valid() && pc == old(pc)[t := Acquiring]
    {
      hide HolderOk, LockQueueOk, CvsOk;
      Unrelated(available, holder, lockq, cvs, pc, t, Acquiring);
      pc := pc[t := Acquiring];
    }

    /** One turn of the loop in lock_acquire: take the lock, or sleep. */
    method TryAcquire(t: tid) returns (got: bool)
      requires Valid() && t in pc && (pc[t] == Acquiring || pc[t] == LockWoken)
      modifies this`available, this`holder, this`lockq, this`pc
      ensures Now() == MonNext(old(Now()), Tries(t))
      ensures Valid() && got == old(available)
      ensures got ==> !available && holder == By(t) && pc == old(pc)[t := Holding] && lockq == old(lockq)
      ensures !got ==> !available && holder == old(holder) && pc == old(pc)[t := LockAsleep]
                       && lockq == old(lockq) + [t]
    {
      hide CvsOk;
      CvsElsewhere(cvs, pc, t, if available then Holding else LockAsleep);
      if !available {
        lockq, pc := lockq + [t], pc[t := LockAsleep];
        return false;
      }
      available, holder, pc := false, By(t), pc[t := Holding];
      return true;
    }

    /** The body of lock_release, by a thread that goes on to be at `next'. */
    method DoRelease(t: tid, next: Pc)
      requires Valid() && t in pc && HoldsLock(pc[t]) && !HoldsLock(next) && next != LockAsleep && next != LockWoken
      requires if pc[t].WaitSpin? then next == WaitReleased(pc[t].cv) else next == Out
      modifies this`available, this`holder, this`lockq, this`pc
      ensures Valid() && available && holder == None
      ensures old(lockq) == [] ==> lockq == [] && pc == old(pc)[t := next]
      ensures old(lockq) != [] ==> lockq == old(lockq)[1..] && pc == old(pc)[t := next][old(lockq)[0] := LockWoken]
    {
      hide CvsOk;
      CvsElsewhere(cvs, pc, t, next);
      available, holder := true, None;
      if lockq == [] {
        pc := pc[t := next];
      } else {
        var w := lockq[0];
        CvsElsewhere(cvs, pc[t := next], w, LockWoken);
        assert forall u :: u in lockq <==> u == w || u in lockq[1..];
        pc, lockq := pc[t := next][w := LockWoken], lockq[1..];
        assert w in pc && pc[w] == LockWoken;
      }
    }

    lemma LockQueueIs()
      requires Valid()
      ensures forall t :: t in lockq <==> t in pc && pc[t] == LockAsleep
    {
    }

    method Release(t: tid)
      requires Valid() && t in pc && pc[t] == Holding
      modifies this`available, this`holder, this`lockq, this`pc
      ensures Now() == MonNext(old(Now()), Releases(t))
      ensures Valid() && available && holder == None
      ensures old(lockq) == [] ==> lockq == [] && pc == old(pc)[t := Out]
      ensures old(lockq) != [] ==> lockq == old(lockq)[1..] && pc == old(pc)[t := Out][old(lockq)[0] := LockWoken]
    {
      DoRelease(t, Out);
    }

    // ----- cv_wait

    /** Take the cv's spinlock, with the lock held. */
    method WaitBegin(t: tid, cv: nat)
      requires Valid() && t in pc && pc[t] == Holding && cv in cvs && cvs[cv].spin == None
      modifies this`cvs, this`pc
      ensures Now() == MonNext(old(Now()), Waits(t, cv))
      ensures Valid() && pc == old(pc)[t := WaitSpin(cv)] && cvs == old(cvs)[cv := old(cvs)[cv].(spin := By(t))]
    {
      hide HolderOk, LockQueueOk, CvOk;
      LockElsewhere(available, holder, lockq, pc, t, WaitSpin(cv));
      SpinTaken(cv, cvs[cv], pc, t);
      CvStep(cvs, pc, t, WaitSpin(cv), cv, cvs[cv].(spin := By(t)));
      hide CvsOk;
      cvs, pc := cvs[cv := cvs[cv].(spin := By(t))], pc[t := WaitSpin(cv)];
    }

    /** lock_release, with the cv's spinlock held. */
    method WaitRelease(t: tid)
      requires Valid() && t in pc && pc[t].WaitSpin?
      modifies this`available, this`holder, this`lockq, this`pc
      ensures Now() == MonNext(old(Now()), WaitReleases(t))
      ensures Valid() && available && holder == None
      ensures old(lockq) == [] ==> lockq == [] && pc == old(pc)[t := WaitReleased(old(pc)[t].cv)]
      ensures old(lockq) != [] ==> lockq == old(lockq)[1..]
                                   && pc == old(pc)[t := WaitReleased(old(pc)[t].cv)][old(lockq)[0] := LockWoken]
    {
      DoRelease(t, WaitReleased(pc[t].cv));
    }

    /** wchan_sleep: on the channel, and the spinlock is free. */
    method WaitSleep(t: tid)
      requires Valid() && t in pc && pc[t].WaitReleased?
      modifies this`cvs, this`pc
      ensures Now() == MonNext(old(Now()), WaitSleeps(t))
      ensures Valid() && old(pc)[t].cv in old(cvs) && pc == old(pc)[t := CvAsleep(old(pc)[t].cv)]
      ensures cvs == old(cvs)[old(pc)[t].cv := Cv(None, old(cvs)[old(pc)[t].cv].queue + [t])]
    {
      hide HolderOk, LockQueueOk, CvOk;
      var cv := pc[t].cv;
      LockElsewhere(available, holder, lockq, pc, t, CvAsleep(cv));
      LastAdded(cv, cvs[cv], pc, t);
      CvStep(cvs, pc, t, CvAsleep(cv), cv, Cv(None, cvs[cv].queue + [t]));
      hide CvsOk;
      cvs, pc := cvs[cv := Cv(None, cvs[cv].queue + [t])], pc[t := CvAsleep(cv)];
    }

    /** Awake: take and release the spinlock, and go for the lock. */
    method WaitWake(t: tid)
      requires Valid() && t in pc && pc[t].CvWoken? && pc[t].cv in cvs && cvs[pc[t].cv].spin == None
      modifies this`pc
      ensures Now() == MonNext(old(Now()), WaitWakes(t))
      ensures Valid() && pc == old(pc)[t := Acquiring]
    {
      hide HolderOk, LockQueueOk, CvsOk;
      Unrelated(available, holder, lockq, cvs, pc, t, Acquiring);
      pc := pc[t := Acquiring];
    }

    /** cv_signal: the first waiter, if any, is woken. */
    method Signal(t: tid, cv: nat)
      requires Valid() && t in pc && pc[t] == Holding && cv in cvs && cvs[cv].spin == None
      modifies this`cvs, this`pc
      ensures Now() == MonNext(old(Now()), Signals(t, cv))
      ensures Valid()
      ensures old(cvs)[cv].queue == [] ==> cvs == old(cvs) && pc == old(pc)
      ensures old(cvs)[cv].queue != [] ==> cvs == old(cvs)[cv := Cv(None, old(cvs)[cv].queue[1..])]
                                           && pc == old(pc)[old(cvs)[cv].queue[0] := CvWoken(cv)]
    {
      hide HolderOk, LockQueueOk, CvsOk;
      if cvs[cv].queue != [] {
        WakeFirst(cv);
      }
    }

    method WakeFirst(cv: nat)
      requires Valid() && cv in cvs && cvs[cv].queue != []
      modifies this`cvs, this`pc
      ensures Valid() && cvs == old(cvs)[cv := old(cvs)[cv].(queue := old(cvs)[cv].queue[1..])]
      ensures pc == old(pc)[old(cvs)[cv].queue[0] := CvWoken(cv)]
    {
      hide HolderOk, LockQueueOk, CvOk;
      var w := cvs[cv].queue[0];
      FirstGone(cv, cvs[cv], pc);
      LockElsewhere(available, holder, lockq, pc, w, CvWoken(cv));
      CvStep(cvs, pc, w, CvWoken(cv), cv, cvs[cv].(queue := cvs[cv].queue[1..]));
      hide CvsOk;
      cvs, pc := cvs[cv := cvs[cv].(queue := cvs[cv].queue[1..])], pc[w := CvWoken(cv)];
    }

    lemma QueueIs(cv: nat)
      requires Valid() && cv in cvs
      ensures forall t :: t in cvs[cv].queue <==> t in pc && pc[t] == CvAsleep(cv)
      ensures Distinct(cvs[cv].queue)
    {
      assert CvOk(cv, cvs[cv], pc);
    }

    /** cv_broadcast: every waiter is woken. */
    method Broadcast(t: tid, cv: nat)
      requires Valid() && t in pc && pc[t] == Holding && cv in cvs && cvs[cv].spin == None
      modifies this`cvs, this`pc
      ensures Now() == MonNext(old(Now()), Broadcasts(t, cv))
      ensures Valid() && cvs == old(cvs)[cv := Cv(None, [])] && pc.Keys == old(pc).Keys
      ensures forall u :: u in pc ==> pc[u] == if old(pc)[u] == CvAsleep(cv) then CvWoken(cv) else old(pc)[u]
    {
      hide HolderOk, LockQueueOk, CvsOk;
      QueueIs(cv);
      while cvs[cv].queue != []
        invariant Valid() && cv in cvs && cvs == old(cvs)[cv := Cv(None, cvs[cv].queue)] && pc.Keys == old(pc).Keys
        invariant forall u :: u in pc ==>
                    pc[u] == if old(pc)[u] == CvAsleep(cv) && u !in cvs[cv].queue then CvWoken(cv) else old(pc)[u]
        decreases |cvs[cv].queue|
      {
        ghost var q := cvs[cv].queue;
        QueueIs(cv);
        WakeFirst(cv);
        assert forall u :: u in q <==> u == q[0] || u in q[1..];
      }
    }
  }

  /** What threads may do to a monitor. */
  datatype MonStep =
    | Starts(t: tid)
    | Tries(t: tid)
    | Releases(t: tid)
    | Waits(t: tid, cv: nat)
    | WaitReleases(t: tid)
    | WaitSleeps(t: tid)
    | WaitWakes(t: tid)
    | Signals(t: tid, cv: nat)
    | Broadcasts(t: tid, cv: nat)

  datatype MonState = Mon(available: bool, holder: Owner, lockq: seq<tid>, cvs: map<nat, Cv>, pc: map<tid, Pc>)

  ghost predicate MonOk(s: MonState) {
    HolderOk(s.available, s.holder, s.pc) && LockQueueOk(s.available, s.lockq, s.pc) && CvsOk(s.cvs, s.pc)
  }

  predicate SpinFree(s: MonState, cv: nat) {
    cv in s.cvs && s.cvs[cv].spin == None
  }

  /** A thread can take the step where it is, and the cv's spinlock is free if the step takes it. */
  predicate CanTake(s: MonState, e: MonStep) {
    && e.t in s.pc
    && match e
       case Starts(t) => s.pc[t] == Out
       case Tries(t) => s.pc[t] == Acquiring || s.pc[t] == LockWoken
       case Releases(t) => s.pc[t] == Holding
       case Waits(t, cv) => s.pc[t] == Holding && SpinFree(s, cv)
       case WaitReleases(t) => s.pc[t].WaitSpin?
       case WaitSleeps(t) => s.pc[t].WaitReleased? && s.pc[t].cv in s.cvs
       case WaitWakes(t) => s.pc[t].CvWoken? && SpinFree(s, s.pc[t].cv)
       case Signals(t, cv) => s.pc[t] == Holding && SpinFree(s, cv)
       case Broadcasts(t, cv) => s.pc[t] == Holding && SpinFree(s, cv)
  }

  /** The lock is free, and its first sleeper is woken; thread t goes on to be at next. */
  function Freed(s: MonState, t: tid, next: Pc): MonState {
    if s.lockq == [] then s.(available := true, holder := None, pc := s.pc[t := next])
    else Mon(true, None, s.lockq[1..], s.cvs, s.pc[t := next][s.lockq[0] := LockWoken])
  }

  /** What the step does. */
  function MonNext(s: MonState, e: MonStep): MonState {
    if !CanTake(s, e) then
      s
    else
      match e
      case Starts(t) => s.(pc := s.pc[t := Acquiring])
      case Tries(t) =>
        if s.available then s.(available := false, holder := By(t), pc := s.pc[t := Holding])
        else s.(lockq := s.lockq + [t], pc := s.pc[t := LockAsleep])
      case Releases(t) => Freed(s, t, Out)
      case Waits(t, cv) => s.(cvs := s.cvs[cv := s.cvs[cv].(spin := By(t))], pc := s.pc[t := WaitSpin(cv)])
      case WaitReleases(t) => Freed(s, t, WaitReleased(s.pc[t].cv))
      case WaitSleeps(t) =>
        var cv := s.pc[t].cv;
        s.(cvs := s.cvs[cv := Cv(None, s.cvs[cv].queue + [t])], pc := s.pc[t := CvAsleep(cv)])
      case WaitWakes(t) => s.(pc := s.pc[t := Acquiring])
      case Signals(t, cv) =>
        var q := s.cvs[cv].queue;
        if q == [] then s else s.(cvs := s.cvs[cv := Cv(None, q[1..])], pc := s.pc[q[0] := CvWoken(cv)])
      case Broadcasts(t, cv) =>
        s.(cvs := s.cvs[cv := Cv(None, [])],
           pc := map u | u in s.pc :: if s.pc[u] == CvAsleep(cv) then CvWoken(cv) else s.pc[u])
  }

  function MonReached(s: MonState, steps: seq<MonStep>): MonState {
    if steps == [] then s else MonNext(MonReached(s, steps[..|steps| - 1]), steps[|steps| - 1])
  }

  lemma OneMoreMon(s: MonState, steps: seq<MonStep>, i: nat)
    requires i < |steps|
    ensures MonReached(s, steps[..i + 1]) == MonNext(MonReached(s, steps[..i]), steps[i])
  {
    assert steps[..i + 1][..i] == steps[..i];
  }

  /** One thread's step. */
  method TakeMon(m: Monitor, e: MonStep)
    requires m.Valid() && CanTake(m.Now(), e)
    modifies m
    ensures m.Valid() && m.Now() == MonNext(old(m.Now()), e)
  {
    hide MonNext, MonOk;
    match e
    case Starts(t) => m.StartAcquire(t);
    case Tries(t) => var got := m.TryAcquire(t);
    case Releases(t) => m.Release(t);
    case Waits(t, cv) => m.WaitBegin(t, cv);
    case WaitReleases(t) => m.WaitRelease(t);
    case WaitSleeps(t) => m.WaitSleep(t);
    case WaitWakes(t) => m.WaitWake(t);
    case Signals(t, cv) => m.Signal(t, cv);
    case Broadcasts(t, cv) => m.Broadcast(t, cv);
  }

  /** In every state of every interleaving of the threads' steps the lock has one holder at most and no
      wakeup is lost. */
  method RunMonitor(m: Monitor, steps: seq<MonStep>)
    requires m.Valid()
    modifies m
    ensures m.Now() == MonReached(old(m.Now()), steps)
    ensures forall i :: 0 <= i <= |steps| ==> MonOk(MonReached(old(m.Now()), steps[..i]))
  {
    hide MonNext, CanTake, MonOk;
    ghost var was := m.Now();
    for i := 0 to |steps|
      invariant m.Now() == MonReached(was, steps[..i])
      invariant m.Valid()
      invariant forall j :: 0 <= j <= i ==> MonOk(MonReached(was, steps[..j]))
    {
      OneMoreMon(was, steps, i);
      if CanTake(m.Now(), steps[i]) {
        TakeMon(m, steps[i]);
      } else {
        MonStays(m.Now(), steps[i]);
      }
    }
    assert steps[..|steps|] == steps;
  }

  lemma MonStays(s: MonState, e: MonStep)
    requires !CanTake(s, e)
    ensures MonNext(s, e) == s
  {
  }

  /** A thread that moves between points where it has nothing to do with the lock's or a cv's state. */
  lemma Unrelated(available: bool, holder: Owner, lockq: seq<tid>, cvs: map<nat, Cv>, pc: map<tid, Pc>, t: tid,
                  next: Pc)
    requires HolderOk(available, holder, pc) && LockQueueOk(available, lockq, pc) && CvsOk(cvs, pc)
    requires t in pc && (pc[t] == Out || pc[t].CvWoken?) && next == Acquiring
    ensures HolderOk(available, holder, pc[t := next]) && LockQueueOk(available, lockq, pc[t := next])
            && CvsOk(cvs, pc[t := next])
  {
    LockElsewhere(available, holder, lockq, pc, t, next);
    CvsElsewhere(cvs, pc, t, next);
  }

  lemma LockElsewhere(available: bool, holder: Owner, lockq: seq<tid>, pc: map<tid, Pc>, t: tid, next: Pc)
    requires HolderOk(available, holder, pc) && LockQueueOk(available, lockq, pc) && t in pc
    requires HoldsLock(next) == HoldsLock(pc[t])
    requires pc[t] != LockAsleep && pc[t] != LockWoken && next != LockAsleep && next != LockWoken
    ensures HolderOk(available, holder, pc[t := next]) && LockQueueOk(available, lockq, pc[t := next])
  {
    if available && lockq != [] {
      var w :| w in pc && pc[w] == LockWoken;
      assert w in pc[t := next] && pc[t := next][w] == LockWoken;
    }
  }

  /** A thread that moves between points that are the same for every condition variable. */
  lemma CvsElsewhere(cvs: map<nat, Cv>, pc: map<tid, Pc>, t: tid, next: Pc)
    requires CvsOk(cvs, pc) && t in pc
    requires !pc[t].CvAsleep? && !next.CvAsleep?
    requires if next.WaitReleased? then pc[t] == WaitSpin(next.cv) else !next.WaitSpin? && !next.CvWoken?
    requires pc[t].WaitSpin? ==> next == WaitReleased(pc[t].cv)
    requires !pc[t].WaitReleased?
    ensures CvsOk(cvs, pc[t := next])
  {
    forall cv | cv in cvs
      ensures CvOk(cv, cvs[cv], pc[t := next])
    {
      assert CvOk(cv, cvs[cv], pc);
    }
  }

  /** The cv a thread is concerned with, if any. */
  predicate At(pc: Pc, cv: nat) {
    pc == WaitSpin(cv) || pc == WaitReleased(cv) || pc == CvAsleep(cv)
  }

  /** A thread moves between points of one condition variable, which changes accordingly. */
  lemma CvStep(cvs: map<nat, Cv>, pc: map<tid, Pc>, t: tid, next: Pc, cv: nat, c': Cv)
    requires CvsOk(cvs, pc) && t in pc && cv in cvs && CvOk(cv, c', pc[t := next])
    requires forall d :: d != cv ==> !At(pc[t], d) && !At(next, d)
    requires next.CvWoken? ==> next.cv == cv
    ensures CvsOk(cvs[cv := c'], pc[t := next])
  {
    forall d | d in cvs && d != cv
      ensures CvOk(d, cvs[d], pc[t := next])
    {
      assert CvOk(d, cvs[d], pc);
      OtherCv(d, cvs[d], pc, t, next);
    }
    hide CvOk;
    var pc', cvs' := pc[t := next], cvs[cv := c'];
    forall u | u in pc' && (pc'[u].WaitSpin? || pc'[u].WaitReleased? || pc'[u].CvAsleep? || pc'[u].CvWoken?)
      ensures pc'[u].cv in cvs'
    {
      assert u == t ==> At(next, next.cv) || next.CvWoken?;
    }
  }

  lemma OtherCv(d: nat, c: Cv, pc: map<tid, Pc>, t: tid, next: Pc)
    requires CvOk(d, c, pc) && t in pc && !At(pc[t], d) && !At(next, d)
    ensures CvOk(d, c, pc[t := next])
  {
    hide Distinct;
  }

  lemma FirstGone(cv: nat, c: Cv, pc: map<tid, Pc>)
    requires CvOk(cv, c, pc) && c.queue != []
    ensures c.queue[0] in pc && pc[c.queue[0]] == CvAsleep(cv)
    ensures CvOk(cv, c.(queue := c.queue[1..]), pc[c.queue[0] := CvWoken(cv)])
  {
    assert forall u :: u in c.queue <==> u == c.queue[0] || u in c.queue[1..];
  }

  lemma LastAdded(cv: nat, c: Cv, pc: map<tid, Pc>, t: tid)
    requires CvOk(cv, c, pc) && t in pc && pc[t] == WaitReleased(cv)
    ensures CvOk(cv, Cv(None, c.queue + [t]), pc[t := CvAsleep(cv)])
  {
  }

  lemma SpinTaken(cv: nat, c: Cv, pc: map<tid, Pc>, t: tid)
    requires CvOk(cv, c, pc) && c.spin == None && t in pc && pc[t] == Holding
    ensures CvOk(cv, c.(spin := By(t)), pc[t := WaitSpin(cv)])
  {
  }
}
