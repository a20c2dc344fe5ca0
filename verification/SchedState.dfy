/** Where threads are: the data of the scheduler, and the invariant every step of it keeps. */
module SchedState {
  import opened Sequences

  type tid = nat

  datatype ThreadState = S_RUN | S_READY | S_SLEEP | S_ZOMBIE

  /** What thread_switch was called for. */
  datatype Cause = Yield | Sleep(wc: nat) | Exit

  /** How far the current thread of a cpu is into thread_switch. */
  datatype Pc =
    | Running              // not in it, or in a part of it that touches nothing shared
    | Locked(cause: Cause) // has the run queue lock
    | Queued(wc: nat)      // is on the wait channel, whose lock it still has
    | Placed(next: ThreadState)  // is on a list; t_state is still to be set
    | Picking              // is looking for the next thread
    | Idle                 // found none, and released the run queue lock
    | Tail                 // just switched to
    | Reaping              // is about to clean up zombies

  datatype Cpu = Cpu(pc: Pc, locked: bool, curthread: tid, isidle: bool, runqueue: seq<tid>, zombies: seq<tid>,
                     woken: seq<tid>, victims: seq<tid>)

  datatype Thread = Thread(state: ThreadState, cpu: nat)

  datatype Holder = Nobody | HeldBy(c: nat)

  datatype Wchan = Wchan(queue: seq<tid>, lock: Holder)

  /** The places a thread can be: on a cpu, on one of the lists the kernel keeps, or on a list private
      to code that is moving it: a wakeup, a migration, or the fork that made it. */
  datatype Place = OnCpu(c: nat) | OnRunQueue(c: nat) | OnZombies(c: nat) | OnWchan(w: nat)
                 | Woken(c: nat) | Victim(c: nat) | Newborn

  /** The current thread is not (yet, or any longer) on a list. */
  predicate Busy(pc: Pc) {
    pc.Running? || pc.Locked? || pc.Tail? || pc.Reaping?
  }

  /** The contents of a place. */
  function At(cpus: seq<Cpu>, wchans: map<nat, Wchan>, newborn: seq<tid>, p: Place): seq<tid> {
    match p
    case OnCpu(c) => if c < |cpus| && Busy(cpus[c].pc) then [cpus[c].curthread] else []
    case OnRunQueue(c) => if c < |cpus| then cpus[c].runqueue else []
    case OnZombies(c) => if c < |cpus| then cpus[c].zombies else []
    case OnWchan(w) => if w in wchans then wchans[w].queue else []
    case Woken(c) => if c < |cpus| then cpus[c].woken else []
    case Victim(c) => if c < |cpus| then cpus[c].victims else []
    case Newborn => newborn
  }

  /** The list holds exactly the threads whose place it is, each once. */
  ghost predicate Holds(list: seq<tid>, p: Place, place: map<tid, Place>) {
    && Distinct(list)
    && forall t :: t in list <==> t in place && place[t] == p
  }

  /** Every place holds the threads it should. */
  ghost predicate Spread(cpus: seq<Cpu>, wchans: map<nat, Wchan>, newborn: seq<tid>, place: map<tid, Place>) {
    forall p: Place :: Holds(At(cpus, wchans, newborn, p), p, place)
  }

  /** Each thread is in exactly one place, and there once. */
  lemma OnePlace(cpus: seq<Cpu>, wchans: map<nat, Wchan>, newborn: seq<tid>, place: map<tid, Place>, t: tid)
    requires Spread(cpus, wchans, newborn, place) && t in place
    ensures multiset(At(cpus, wchans, newborn, place[t]))[t] == 1
    ensures forall p: Place :: p != place[t] ==> t !in At(cpus, wchans, newborn, p)
  {
    assert Holds(At(cpus, wchans, newborn, place[t]), place[t], place);
    DistinctOnce(At(cpus, wchans, newborn, place[t]), t);
    forall p: Place | p != place[t]
      ensures t !in At(cpus, wchans, newborn, p)
    {
      assert Holds(At(cpus, wchans, newborn, p), p, place);
    }
  }

  lemma {:induction false} DistinctOnce(s: seq<tid>, t: tid)
    requires Distinct(s) && t in s
    ensures multiset(s)[t] == 1
  {
    assert s == s[..|s| - 1] + [s[|s| - 1]];
    if s[|s| - 1] == t {
      assert t !in s[..|s| - 1];
    } else {
      DistinctOnce(s[..|s| - 1], t);
    }
  }

  /** The state a thread in a place should have. A boot thread keeps the state it was created with
      until it is first switched to. */
  function StateAt(p: Place, booting: bool): ThreadState {
    match p
    case OnCpu(c) => if booting then S_READY else S_RUN
    case OnRunQueue(c) => S_READY
    case OnZombies(c) => S_ZOMBIE
    case OnWchan(w) => S_SLEEP
    case Woken(c) => S_SLEEP
    case Victim(c) => S_READY
    case Newborn => S_READY
  }

  /** In the middle of a switch the state of the thread switched away from, or to, is about to change. */
  predicate Changing(cpu: Cpu, t: tid) {
    cpu.curthread == t && (cpu.pc.Queued? || cpu.pc.Placed? || cpu.pc.Tail?)
  }

  /** What Changing will make of the current thread fits where it is. */
  ghost predicate Underway(cpu: Cpu, place: map<tid, Place>, booting: set<tid>) {
    && cpu.curthread in place
    && (cpu.pc.Queued? ==> place[cpu.curthread] == OnWchan(cpu.pc.wc))
    && (cpu.pc.Placed? ==> cpu.pc.next == StateAt(place[cpu.curthread], false) && cpu.pc.next != S_RUN)
    && (cpu.pc.Tail? ==> cpu.curthread !in booting)
  }

  /** The cpu is idle, and its lock held, as its code is where it is. */
  predicate Flags(cpu: Cpu) {
    && (cpu.isidle <==> cpu.pc.Picking? || cpu.pc.Idle?)
    && (cpu.locked <==> !(cpu.pc.Running? || cpu.pc.Idle? || cpu.pc.Reaping?))
  }

  ghost predicate ThreadOk(cpus: seq<Cpu>, place: map<tid, Place>, booting: set<tid>, th: Thread, t: tid)
    requires t in place
  {
    && th.cpu < |cpus|
    && (t in booting ==> place[t].OnCpu?)
    && (Changing(cpus[th.cpu], t) || th.state == StateAt(place[t], t in booting))
    && (place[t].OnCpu? || place[t].OnRunQueue? || place[t].OnZombies? || place[t].Victim? ==> place[t].c == th.cpu)
  }

  ghost predicate ThreadsOk(cpus: seq<Cpu>, place: map<tid, Place>, booting: set<tid>, threads: map<tid, Thread>) {
    && threads.Keys == place.Keys && booting <= place.Keys
    && forall t :: t in place ==> ThreadOk(cpus, place, booting, threads[t], t)
  }

  ghost predicate CpusOk(cpus: seq<Cpu>, place: map<tid, Place>, booting: set<tid>, threads: map<tid, Thread>) {
    forall c :: 0 <= c < |cpus| ==>
      && Flags(cpus[c]) && Underway(cpus[c], place, booting)
      && cpus[c].curthread in threads && threads[cpus[c].curthread].cpu == c
  }

  ghost predicate SchedOk(cpus: seq<Cpu>, wchans: map<nat, Wchan>, newborn: seq<tid>, place: map<tid, Place>,
                          booting: set<tid>, threads: map<tid, Thread>)
  {
    && Spread(cpus, wchans, newborn, place)
    && ThreadsOk(cpus, place, booting, threads)
    && CpusOk(cpus, place, booting, threads)
    && LocksOk(cpus, wchans)
  }

  /** Until thread_switch drops the lock of the wait channel it sleeps on, nobody else has that lock. */
  ghost predicate LocksOk(cpus: seq<Cpu>, wchans: map<nat, Wchan>) {
    forall c :: 0 <= c < |cpus| ==>
      && (cpus[c].pc.Queued? ==> cpus[c].pc.wc in wchans && wchans[cpus[c].pc.wc].lock == HeldBy(c))
      && (cpus[c].pc.Locked? && cpus[c].pc.cause.Sleep? ==>
            cpus[c].pc.cause.wc in wchans && wchans[cpus[c].pc.cause.wc].lock == HeldBy(c))
  }

  // ----- what the invariant says

  /** Whenever the run queue lock of a thread's cpu is free, its state says where it is. */
  lemma StateMatches(cpus: seq<Cpu>, wchans: map<nat, Wchan>, newborn: seq<tid>, place: map<tid, Place>,
                     booting: set<tid>, threads: map<tid, Thread>, t: tid)
    requires SchedOk(cpus, wchans, newborn, place, booting, threads) && t in place
    requires threads[t].cpu < |cpus| && !cpus[threads[t].cpu].locked
    ensures threads[t].state == StateAt(place[t], t in booting)
    ensures threads[t].state == S_RUN ==> cpus[threads[t].cpu].curthread == t && !cpus[threads[t].cpu].isidle
    ensures threads[t].state == S_RUN <==> place[t].OnCpu? && t !in booting
    ensures threads[t].state == S_READY <==>
            place[t].OnRunQueue? || place[t].Victim? || place[t] == Newborn || (place[t].OnCpu? && t in booting)
    ensures threads[t].state == S_SLEEP <==> place[t].OnWchan? || place[t].Woken?
    ensures threads[t].state == S_ZOMBIE <==> place[t] == OnZombies(threads[t].cpu)
  {
    assert ThreadOk(cpus, place, booting, threads[t], t);
    var c := threads[t].cpu;
    assert Flags(cpus[c]);
    if threads[t].state == S_RUN {
      assert Holds(At(cpus, wchans, newborn, OnCpu(c)), OnCpu(c), place);
      assert t in At(cpus, wchans, newborn, OnCpu(c));
    }
  }

  /** While a cpu runs the thread it was booted with, that thread is in state S_READY: so a running thread is in
      state S_RUN if and only if it is not one of these. */
  lemma BootThreadIsReady(cpus: seq<Cpu>, wchans: map<nat, Wchan>, newborn: seq<tid>, place: map<tid, Place>,
                          booting: set<tid>, threads: map<tid, Thread>, c: nat)
    requires SchedOk(cpus, wchans, newborn, place, booting, threads) && c < |cpus| && cpus[c].pc == Running
    ensures cpus[c].curthread in threads && cpus[c].curthread in place && place[cpus[c].curthread] == OnCpu(c)
    ensures threads[cpus[c].curthread].state == if cpus[c].curthread in booting then S_READY else S_RUN
  {
    hide *;
    CpuIs(cpus, wchans, newborn, place, booting, threads, c);
    RunsIn(cpus, place, booting, threads, c);
  }

  lemma RunsIn(cpus: seq<Cpu>, place: map<tid, Place>, booting: set<tid>, threads: map<tid, Thread>, c: nat)
    requires c < |cpus| && cpus[c].pc == Running && cpus[c].curthread in threads && cpus[c].curthread in place
    requires threads[cpus[c].curthread].cpu == c
             && ThreadOk(cpus, place, booting, threads[cpus[c].curthread], cpus[c].curthread)
    requires Busy(cpus[c].pc) ==> place[cpus[c].curthread] == OnCpu(c)
    ensures place[cpus[c].curthread] == OnCpu(c)
    ensures threads[cpus[c].curthread].state == if cpus[c].curthread in booting then S_READY else S_RUN
  {
  }

  /** No thread is current on two cpus, so none runs on two. */
  lemma CurrentOnce(cpus: seq<Cpu>, place: map<tid, Place>, booting: set<tid>, threads: map<tid, Thread>, c: nat,
                    d: nat)
    requires CpusOk(cpus, place, booting, threads) && c < |cpus| && d < |cpus| && cpus[c].curthread == cpus[d].curthread
    ensures c == d
  {
  }

  // ----- changes

  lemma CpuIs(cpus: seq<Cpu>, wchans: map<nat, Wchan>, newborn: seq<tid>, place: map<tid, Place>,
              booting: set<tid>, threads: map<tid, Thread>, c: nat)
    requires SchedOk(cpus, wchans, newborn, place, booting, threads) && c < |cpus|
    ensures Flags(cpus[c]) && Underway(cpus[c], place, booting)
    ensures cpus[c].curthread in place && place.Keys == threads.Keys && threads[cpus[c].curthread].cpu == c
    ensures ThreadOk(cpus, place, booting, threads[cpus[c].curthread], cpus[c].curthread)
    ensures Busy(cpus[c].pc) ==> place[cpus[c].curthread] == OnCpu(c)
    ensures cpus[c].pc.Queued? ==> cpus[c].pc.wc in wchans && wchans[cpus[c].pc.wc].lock == HeldBy(c)
    ensures cpus[c].pc.Locked? && cpus[c].pc.cause.Sleep? ==>
              cpus[c].pc.cause.wc in wchans && wchans[cpus[c].pc.cause.wc].lock == HeldBy(c)
    ensures cpus[c].curthread in place && place.Keys == threads.Keys
    ensures forall d :: 0 <= d < |cpus| && d != c ==> cpus[d].curthread != cpus[c].curthread
  {
    if Busy(cpus[c].pc) {
      InPlace(cpus, wchans, newborn, place, OnCpu(c), cpus[c].curthread);
    }
  }

  lemma ThreadIs(cpus: seq<Cpu>, wchans: map<nat, Wchan>, newborn: seq<tid>, place: map<tid, Place>,
                 booting: set<tid>, threads: map<tid, Thread>, p: Place, t: tid)
    requires SchedOk(cpus, wchans, newborn, place, booting, threads) && t in At(cpus, wchans, newborn, p)
    ensures t in place && t in threads && place[t] == p && place.Keys == threads.Keys
    ensures ThreadOk(cpus, place, booting, threads[t], t)
    ensures forall d :: 0 <= d < |cpus| && cpus[d].curthread == t ==> threads[t].cpu == d
  {
    InPlace(cpus, wchans, newborn, place, p, t);
  }

  lemma InPlace(cpus: seq<Cpu>, wchans: map<nat, Wchan>, newborn: seq<tid>, place: map<tid, Place>, p: Place, t: tid)
    requires Spread(cpus, wchans, newborn, place) && t in At(cpus, wchans, newborn, p)
    ensures t in place && place[t] == p
  {
    assert Holds(At(cpus, wchans, newborn, p), p, place);
  }

  /** What a change of one cpu and one thread has to respect. */
  lemma ThreadsStep(cpus: seq<Cpu>, place: map<tid, Place>, booting: set<tid>, threads: map<tid, Thread>,
                    c: nat, cpu': Cpu, t: tid, th': Thread, to: Place, booting': set<tid>)
    requires ThreadsOk(cpus, place, booting, threads) && c < |cpus| && t in place && t in threads
    requires booting' == booting || booting' == booting - {t}
    requires ThreadOk(cpus[c := cpu'], place[t := to], booting', th', t)
    requires forall u :: u != t && Changing(cpus[c], u) ==> Changing(cpu', u)
    ensures ThreadsOk(cpus[c := cpu'], place[t := to], booting', threads[t := th'])
  {
    forall u | u in place && u != t
      ensures ThreadOk(cpus[c := cpu'], place[t := to], booting', threads[u], u)
    {
      assert ThreadOk(cpus, place, booting, threads[u], u);
      OtherThread(cpus, place, booting, threads[u], c, cpu', u, t, to, booting');
    }
    hide ThreadOk, Changing;
  }

  lemma OtherThread(cpus: seq<Cpu>, place: map<tid, Place>, booting: set<tid>, th: Thread,
                    c: nat, cpu': Cpu, u: tid, t: tid, to: Place, booting': set<tid>)
    requires u in place && u != t && ThreadOk(cpus, place, booting, th, u) && c < |cpus|
    requires Changing(cpus[c], u) ==> Changing(cpu', u)
    requires booting' == booting || booting' == booting - {t}
    ensures ThreadOk(cpus[c := cpu'], place[t := to], booting', th, u)
  {
    hide StateAt, Changing;
  }

  lemma CpusStep(cpus: seq<Cpu>, place: map<tid, Place>, booting: set<tid>, threads: map<tid, Thread>,
                 c: nat, cpu': Cpu, t: tid, th': Thread, to: Place, booting': set<tid>)
    requires CpusOk(cpus, place, booting, threads) && c < |cpus| && t in place && t in threads
    requires booting' == booting || booting' == booting - {t}
    requires Flags(cpu') && Underway(cpu', place[t := to], booting')
    requires cpu'.curthread in threads && (if cpu'.curthread == t then th'.cpu else threads[cpu'.curthread].cpu) == c
    requires forall d :: 0 <= d < |cpus| && d != c && cpus[d].curthread == t ==>
               th'.cpu == d && Underway(cpus[d], place[t := to], booting')
    ensures CpusOk(cpus[c := cpu'], place[t := to], booting', threads[t := th'])
  {
    forall d | 0 <= d < |cpus| && d != c
      ensures Underway(cpus[d], place[t := to], booting')
    {
      assert Underway(cpus[d], place, booting);
      if cpus[d].curthread != t {
        OtherCpu(cpus[d], place, booting, t, to, booting');
      }
    }
    hide Underway, Flags;
  }

  lemma OtherCpu(cpu: Cpu, place: map<tid, Place>, booting: set<tid>, t: tid, to: Place, booting': set<tid>)
    requires Underway(cpu, place, booting) && cpu.curthread != t
    requires booting' == booting || booting' == booting - {t}
    ensures Underway(cpu, place[t := to], booting')
  {
  }

  lemma LocksStep(cpus: seq<Cpu>, wchans: map<nat, Wchan>, c: nat, cpu': Cpu)
    requires LocksOk(cpus, wchans) && c < |cpus|
    requires cpu'.pc.Queued? ==> cpu'.pc.wc in wchans && wchans[cpu'.pc.wc].lock == HeldBy(c)
    requires cpu'.pc.Locked? && cpu'.pc.cause.Sleep?
             ==> cpu'.pc.cause.wc in wchans && wchans[cpu'.pc.cause.wc].lock == HeldBy(c)
    ensures LocksOk(cpus[c := cpu'], wchans)
  {
  }

  /** A wait channel changes its queue, or is locked or unlocked by cpu c, which is not going to sleep on it. */
  lemma WchanStep(cpus: seq<Cpu>, wchans: map<nat, Wchan>, c: nat, w: nat, wc': Wchan)
    requires LocksOk(cpus, wchans) && c < |cpus| && w in wchans
    requires wc'.lock == wchans[w].lock || ((wchans[w].lock == Nobody || wchans[w].lock == HeldBy(c))
                                            && !cpus[c].pc.Queued? && !cpus[c].pc.Locked?)
    ensures LocksOk(cpus, wchans[w := wc'])
  {
  }

  lemma Fold(cpus: seq<Cpu>, wchans: map<nat, Wchan>, newborn: seq<tid>, place: map<tid, Place>,
             booting: set<tid>, threads: map<tid, Thread>)
    requires Spread(cpus, wchans, newborn, place) && ThreadsOk(cpus, place, booting, threads)
    requires CpusOk(cpus, place, booting, threads) && LocksOk(cpus, wchans)
    ensures SchedOk(cpus, wchans, newborn, place, booting, threads)
  {
  }

  lemma Unfold(cpus: seq<Cpu>, wchans: map<nat, Wchan>, newborn: seq<tid>, place: map<tid, Place>,
               booting: set<tid>, threads: map<tid, Thread>)
    requires SchedOk(cpus, wchans, newborn, place, booting, threads)
    ensures Spread(cpus, wchans, newborn, place) && ThreadsOk(cpus, place, booting, threads)
    ensures CpusOk(cpus, place, booting, threads) && LocksOk(cpus, wchans)
    ensures place.Keys == threads.Keys
  {
  }

  /** Some contents are as they were, with place, and the others are right. */
  lemma SpreadFrame(cpus: seq<Cpu>, wchans: map<nat, Wchan>, newborn: seq<tid>, place: map<tid, Place>,
                    cpus': seq<Cpu>, wchans': map<nat, Wchan>, newborn': seq<tid>)
    requires Spread(cpus, wchans, newborn, place)
    requires forall p: Place :: At(cpus', wchans', newborn', p) == At(cpus, wchans, newborn, p)
    ensures Spread(cpus', wchans', newborn', place)
  {
    forall p: Place
      ensures Holds(At(cpus', wchans', newborn', p), p, place)
    {
      assert Holds(At(cpus, wchans, newborn, p), p, place);
    }
  }

  /** No place but the two has other contents than before. */
  ghost predicate ChangedOnly(cpus: seq<Cpu>, wchans: map<nat, Wchan>, newborn: seq<tid>,
                              cpus': seq<Cpu>, wchans': map<nat, Wchan>, newborn': seq<tid>, from: Place, to: Place)
  {
    forall p: Place :: p != from && p != to ==> At(cpus', wchans', newborn', p) == At(cpus, wchans, newborn, p)
  }

  /** The lists of cpu c stay, but for those of the two places. */
  predicate CpuKeeps(cpu: Cpu, cpu': Cpu, c: nat, from: Place, to: Place) {
    && (OnCpu(c) == from || OnCpu(c) == to || (Busy(cpu'.pc) == Busy(cpu.pc) && cpu'.curthread == cpu.curthread))
    && (OnRunQueue(c) == from || OnRunQueue(c) == to || cpu'.runqueue == cpu.runqueue)
    && (OnZombies(c) == from || OnZombies(c) == to || cpu'.zombies == cpu.zombies)
    && (Woken(c) == from || Woken(c) == to || cpu'.woken == cpu.woken)
    && (Victim(c) == from || Victim(c) == to || cpu'.victims == cpu.victims)
  }

  lemma OneCpu(cpus: seq<Cpu>, wchans: map<nat, Wchan>, newborn: seq<tid>, c: nat, cpu': Cpu, from: Place, to: Place)
    requires c < |cpus| && CpuKeeps(cpus[c], cpu', c, from, to)
    ensures ChangedOnly(cpus, wchans, newborn, cpus[c := cpu'], wchans, newborn, from, to)
  {
  }

  lemma OneWchan(cpus: seq<Cpu>, wchans: map<nat, Wchan>, newborn: seq<tid>, w: nat, wc': Wchan, from: Place, to: Place)
    requires w in wchans && (OnWchan(w) == from || OnWchan(w) == to || wc'.queue == wchans[w].queue)
    ensures ChangedOnly(cpus, wchans, newborn, cpus, wchans[w := wc'], newborn, from, to)
  {
  }

  lemma OneNewborn(cpus: seq<Cpu>, wchans: map<nat, Wchan>, newborn: seq<tid>, newborn': seq<tid>, from: Place,
                   to: Place)
    requires Newborn == from || Newborn == to
    ensures ChangedOnly(cpus, wchans, newborn, cpus, wchans, newborn', from, to)
  {
  }

  lemma ThenOnly(cpus: seq<Cpu>, wchans: map<nat, Wchan>, newborn: seq<tid>, cpus1: seq<Cpu>, wchans1: map<nat, Wchan>,
                 newborn1: seq<tid>, cpus': seq<Cpu>, wchans': map<nat, Wchan>, newborn': seq<tid>, from: Place,
                   to: Place)
    requires ChangedOnly(cpus, wchans, newborn, cpus1, wchans1, newborn1, from, to)
    requires ChangedOnly(cpus1, wchans1, newborn1, cpus', wchans', newborn', from, to)
    ensures ChangedOnly(cpus, wchans, newborn, cpus', wchans', newborn', from, to)
  {
  }

  /** Thread t moves from one list to another. */
  lemma Moved(cpus: seq<Cpu>, wchans: map<nat, Wchan>, newborn: seq<tid>, place: map<tid, Place>,
              cpus': seq<Cpu>, wchans': map<nat, Wchan>, newborn': seq<tid>, t: tid, to: Place)
    requires Spread(cpus, wchans, newborn, place) && t in place && place[t] != to
    requires ChangedOnly(cpus, wchans, newborn, cpus', wchans', newborn', place[t], to)
    requires Removed(At(cpus, wchans, newborn, place[t]), At(cpus', wchans', newborn', place[t]), t)
    requires Removed(At(cpus', wchans', newborn', to), At(cpus, wchans, newborn, to), t)
    ensures Spread(cpus', wchans', newborn', place[t := to])
  {
    hide At, Removed, Distinct;
    assert forall p: Place :: p != place[t] && p != to ==>
             At(cpus', wchans', newborn', p) == At(cpus, wchans, newborn, p);
    forall p: Place
      ensures Holds(At(cpus', wchans', newborn', p), p, place[t := to])
    {
      var a, a' := At(cpus, wchans, newborn, p), At(cpus', wchans', newborn', p);
      assert Holds(a, p, place);
      if p == place[t] {
        RemovedHolds(a, a', t);
      } else if p == to {
        AddedHolds(a', a, t);
      }
    }
  }

  /** b is a without the one occurrence of t. */
  ghost predicate Removed(a: seq<tid>, b: seq<tid>, t: tid) {
    exists i :: 0 <= i < |a| && a[i] == t && b == a[..i] + a[i + 1..]
  }

  /** b is a without its element at i. */
  ghost predicate Gap(a: seq<tid>, b: seq<tid>, i: nat) {
    && i < |a| == |b| + 1
    && (forall k :: 0 <= k < i ==> a[k] == b[k])
    && forall k :: i < k < |a| ==> a[k] == b[k - 1]
  }

  lemma FindGap(a: seq<tid>, b: seq<tid>, t: tid) returns (i: nat)
    requires Removed(a, b, t)
    ensures Gap(a, b, i) && a[i] == t
  {
    i :| 0 <= i < |a| && a[i] == t && b == a[..i] + a[i + 1..];
  }

  lemma RemovedHolds(a: seq<tid>, b: seq<tid>, t: tid)
    requires Removed(a, b, t) && Distinct(a)
    ensures Distinct(b) && forall x :: x in b <==> x in a && x != t
  {
    hide Removed;
    var i := FindGap(a, b, t);
    forall j, k | 0 <= j < k < |b|
      ensures b[j] != b[k]
    {
      assert b[j] == a[if j < i then j else j + 1] && b[k] == a[if k < i then k else k + 1];
    }
    forall x
      ensures x in b <==> x in a && x != t
    {
      if x in b {
        var k :| 0 <= k < |b| && b[k] == x;
        assert x == if k < i then a[k] else a[k + 1];
      }
      if x in a && x != t {
        var k :| 0 <= k < |a| && a[k] == x;
        assert x == if k < i then b[k] else b[k - 1];
      }
    }
  }

  lemma AddedHolds(a: seq<tid>, b: seq<tid>, t: tid)
    requires Removed(a, b, t) && Distinct(b) && t !in b
    ensures Distinct(a) && forall x :: x in a <==> x in b || x == t
  {
    hide Removed;
    var i := FindGap(a, b, t);
    forall x
      ensures x in a <==> x in b || x == t
    {
      if x in b {
        var k :| 0 <= k < |b| && b[k] == x;
        assert x == if k < i then a[k] else a[k + 1];
      }
    }
  }

  lemma TailAdded(a: seq<tid>, t: tid)
    ensures Removed(a + [t], a, t)
  {
    assert (a + [t])[..|a|] + (a + [t])[|a| + 1..] == a;
  }

  lemma HeadAdded(a: seq<tid>, t: tid)
    ensures Removed([t] + a, a, t)
  {
    assert ([t] + a)[..0] + ([t] + a)[1..] == a;
  }

  lemma HeadRemoved(a: seq<tid>)
    requires a != []
    ensures Removed(a, a[1..], a[0])
  {
    assert a[..0] + a[1..] == a[1..];
  }

  lemma TailRemoved(a: seq<tid>)
    requires a != []
    ensures Removed(a, a[..|a| - 1], a[|a| - 1])
  {
    assert a[..|a| - 1] + a[|a|..] == a[..|a| - 1];
  }

  lemma NthRemoved(a: seq<tid>, i: nat)
    requires i < |a|
    ensures Removed(a, a[..i] + a[i + 1..], a[i])
  {
  }
}
