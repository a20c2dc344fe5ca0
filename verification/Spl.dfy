/** spl.c, spinlock.c and what context switches do to their accounts: when interrupts are off, and why. */
module Spl {
  import opened Options

  type tid = nat

  const IPL_NONE: nat := 0
  const IPL_HIGH: nat := 1

  /** t_curspl and t_iplhigh_count. */
  datatype Thread = Thread(curspl: nat, iplhigh: int)

  /** c_curthread, c_spinlocks, whether the hardware has interrupts off, and the lock it spins on. */
  datatype Cpu = Cpu(cur: tid, spinlocks: int, irqOff: bool, spinning: Option<nat>)

  ghost function Held(locks: map<nat, Option<nat>>, c: nat): set<nat> {
    set l | l in locks && locks[l] == Some(c)
  }

  /** The account of a cpu and its current thread: the raises still to be lowered are those of its
      spinlocks and that of its spl, and interrupts are off while there are any. */
  ghost predicate AccountOk(cpu: Cpu, th: Thread, held: nat) {
    && (th.curspl == IPL_NONE || th.curspl == IPL_HIGH)
    && cpu.spinlocks == held + (if cpu.spinning.Some? then 1 else 0)
    && th.iplhigh == cpu.spinlocks + th.curspl
    && (cpu.irqOff <==> th.iplhigh > 0)
  }

  /** A thread that is not running left, or will start, inside thread_switch: at splhigh, and with the
      run queue lock accounted to it. */
  predicate Parked(th: Thread) {
    th.curspl == IPL_HIGH && th.iplhigh == 2
  }

  ghost predicate CpusOk(cpus: seq<Cpu>, threads: map<tid, Thread>, locks: map<nat, Option<nat>>) {
    && (forall c :: 0 <= c < |cpus| ==>
          cpus[c].cur in threads && AccountOk(cpus[c], threads[cpus[c].cur], |Held(locks, c)|))
    && (forall c, d :: 0 <= c < d < |cpus| ==> cpus[c].cur != cpus[d].cur)
    && (forall l :: l in locks && locks[l].Some? ==> locks[l].value < |cpus|)
    && (forall c :: 0 <= c < |cpus| && cpus[c].spinning.Some? ==>
          cpus[c].spinning.value in locks && locks[cpus[c].spinning.value] != Some(c))
  }

  ghost predicate OthersParked(cpus: seq<Cpu>, threads: map<tid, Thread>) {
    forall t :: t in threads && (forall c :: 0 <= c < |cpus| ==> cpus[c].cur != t) ==> Parked(threads[t])
  }

  /** What one cpu does to itself, its current thread and a lock of its own. */
  lemma OwnStep(cpus: seq<Cpu>, threads: map<tid, Thread>, locks: map<nat, Option<nat>>, c: nat, cpu': Cpu, th': Thread,
                locks': map<nat, Option<nat>>)
    requires CpusOk(cpus, threads, locks) && OthersParked(cpus, threads) && c < |cpus|
    requires cpu'.cur == cpus[c].cur && AccountOk(cpu', th', |Held(locks', c)|)
    requires cpu'.spinning.Some? ==> cpu'.spinning.value in locks' && locks'[cpu'.spinning.value] != Some(c)
    requires locks'.Keys == locks.Keys
    requires forall l :: l in locks ==> locks'[l] == locks[l] || locks'[l] == None || locks'[l] == Some(c)
    requires forall d :: 0 <= d < |cpus| && d != c ==> |Held(locks', d)| == |Held(locks, d)|
    ensures CpusOk(cpus[c := cpu'], threads[cpus[c].cur := th'], locks')
    ensures OthersParked(cpus[c := cpu'], threads[cpus[c].cur := th'])
  {
    hide AccountOk, Held;
    var cpus', threads' := cpus[c := cpu'], threads[cpus[c].cur := th'];
    assert forall d :: 0 <= d < |cpus| ==> cpus'[d].cur == cpus[d].cur;
    forall d | 0 <= d < |cpus'|
      ensures cpus'[d].cur in threads' && AccountOk(cpus'[d], threads'[cpus'[d].cur], |Held(locks', d)|)
    {
    }
    ParkedFrame(cpus, cpus', threads, threads');
  }

  /** The threads that do not run are the same, and as they were. */
  lemma ParkedFrame(cpus: seq<Cpu>, cpus': seq<Cpu>, threads: map<tid, Thread>, threads': map<tid, Thread>)
    requires OthersParked(cpus, threads) && |cpus'| == |cpus| && forall d :: 0 <= d < |cpus| ==>
               cpus'[d].cur == cpus[d].cur
    requires forall t :: t in threads' && (forall c :: 0 <= c < |cpus| ==> cpus[c].cur != t) ==>
               t in threads && threads'[t] == threads[t]
    ensures OthersParked(cpus', threads')
  {
    forall t | t in threads' && (forall d :: 0 <= d < |cpus'| ==> cpus'[d].cur != t)
      ensures Parked(threads'[t])
    {
      assert forall d :: 0 <= d < |cpus| ==> cpus[d].cur == cpus'[d].cur;
    }
  }

  /** A spinlock changes hands between a cpu and nobody. */
  lemma HeldChange(locks: map<nat, Option<nat>>, l: nat, c: nat, d: nat)
    requires l in locks
    ensures locks[l] == None ==> |Held(locks[l := Some(c)], d)| == |Held(locks, d)| + if d == c then 1 else 0
    ensures locks[l] == Some(c) ==> |Held(locks[l := None], d)| == |Held(locks, d)| - if d == c then 1 else 0
  {
    if locks[l] == None {
      assert Held(locks[l := Some(c)], c) == Held(locks, c) + {l};
      assert d != c ==> Held(locks[l := Some(c)], d) == Held(locks, d);
    }
    if locks[l] == Some(c) {
      assert Held(locks, c) == Held(locks[l := None], c) + {l};
      assert d != c ==> Held(locks[l := None], d) == Held(locks, d);
    }
  }

  lemma NoneHeld(locks: map<nat, Option<nat>>)
    requires forall l :: l in locks ==> locks[l] == None
    ensures forall c: nat :: |Held(locks, c)| == 0
  {
    forall c: nat
      ensures |Held(locks, c)| == 0
    {
      assert Held(locks, c) == {};
    }
  }

  /** thread_create */
  function Created(t: tid): Thread {
    Thread(IPL_HIGH, 1)
  }

  /** The thread and its cpu after one raise less, and for the cpu one spinlock less. */
  function Lowered(th: Thread): Thread {
    th.(iplhigh := th.iplhigh - 1)
  }

  function Raised(th: Thread): Thread {
    th.(iplhigh := th.iplhigh + 1)
  }

  function Let(cpu: Cpu, th: Thread): Cpu {
    Cpu(cpu.cur, cpu.spinlocks - 1, th.iplhigh > 1, None)
  }

  class Machine {
    var cpus: seq<Cpu>
    var threads: map<tid, Thread>
    var locks: map<nat, Option<nat>>

    ghost predicate Valid() reads this {
      CpusOk(cpus, threads, locks) && OthersParked(cpus, threads)
    }

    function Now(): State reads this {
      State(cpus, threads, locks)
    }

    /** Each cpu starts in a thread made by thread_create: at splhigh, interrupts off. */
    constructor (n: nat, spinlocks: set<nat>)
      ensures Valid() && |cpus| == n && forall c :: 0 <= c < n ==>
                cpus[c].irqOff && threads[cpus[c].cur] == Thread(IPL_HIGH, 1)
    {
      cpus := seq(n, (c: nat) => Cpu(c, 0, true, None));
      threads := map c: nat | 0 <= c < n :: Created(c);
      locks := map l | l in spinlocks :: None;
      new;
      NoneHeld(locks);
      assert forall t :: t in threads ==> cpus[t].cur == t;
    }

    ghost predicate Running(c: nat) reads this {
      c < |cpus| && cpus[c].cur in threads
    }

    // ----- spl.c

    method SplRaise(c: nat)
      requires Running(c)
      modifies this`cpus, this`threads
      ensures |cpus| == |old(cpus)| && cpus[c].cur == old(cpus)[c].cur
      ensures cpus
              == old(cpus)[c := old(cpus)[c].(irqOff := old(cpus)[c].irqOff || old(threads)[cpus[c].cur].iplhigh == 0)]
      ensures threads == old(threads)[cpus[c].cur := Raised(old(threads)[cpus[c].cur])]
      ensures old(threads)[cpus[c].cur].iplhigh == 0 || old(cpus)[c].irqOff ==> cpus[c].irqOff
    {
      var cur := cpus[c].cur;
      if threads[cur].iplhigh == 0 {
        cpus := cpus[c := cpus[c].(irqOff := true)];
      }
      threads := threads[cur := threads[cur].(iplhigh := threads[cur].iplhigh + 1)];
    }

    method SplLower(c: nat)
      requires Running(c)
      modifies this`cpus, this`threads
      ensures |cpus| == |old(cpus)| && cpus[c].cur == old(cpus)[c].cur
      ensures cpus
              == old(cpus)[c := old(cpus)[c].(irqOff := old(cpus)[c].irqOff && old(threads)[cpus[c].cur].iplhigh != 1)]
      ensures threads == old(threads)[cpus[c].cur := Lowered(old(threads)[cpus[c].cur])]
    {
      var cur := cpus[c].cur;
      threads := threads[cur := threads[cur].(iplhigh := threads[cur].iplhigh - 1)];
      if threads[cur].iplhigh == 0 {
        cpus := cpus[c := cpus[c].(irqOff := false)];
      }
    }

    /** splx, spl0 and splhigh: the old level comes back, and the account is right for the new one
        whatever spinlocks are held. */
    method Splx(c: nat, spl: nat) returns (ret: nat)
      requires Valid() && c < |cpus| && (spl == IPL_NONE || spl == IPL_HIGH)
      modifies this`cpus, this`threads
      ensures Valid() && |cpus| == |old(cpus)| && ret == old(threads)[old(cpus)[c].cur].curspl
      ensures cpus == old(cpus)[c := old(cpus)[c].(irqOff := cpus[c].spinlocks > 0 || spl == IPL_HIGH)]
      ensures threads == old(threads)[cpus[c].cur := Thread(spl, cpus[c].spinlocks + spl)]
      ensures old(cpus)[c].spinning == None ==> Now() == Next(old(Now()), DoSplx(c, spl))
    {
      hide CpusOk, OthersParked, Held;
      ghost var cpus0, threads0 := cpus, threads;
      Account(c);
      var cur := cpus[c].cur;
      if threads[cur].curspl < spl {
        SplRaise(c);
        ret := threads[cur].curspl;
        threads := threads[cur := threads[cur].(curspl := spl)];
      } else if threads[cur].curspl > spl {
        ret := threads[cur].curspl;
        threads := threads[cur := threads[cur].(curspl := spl)];
        SplLower(c);
      } else {
        ret := spl;
      }
      OwnStep(cpus0, threads0, locks, c, cpus[c], threads[cur], locks);
      assert cpus == cpus0[c := cpus[c]] && threads == threads0[cur := threads[cur]];
    }

    lemma Account(c: nat)
      requires Valid() && c < |cpus|
      ensures cpus[c].cur in threads && AccountOk(cpus[c], threads[cpus[c].cur], |Held(locks, c)|)
      ensures cpus[c].spinning.Some? ==> cpus[c].spinning.value in locks && locks[cpus[c].spinning.value] != Some(c)
    {
    }

    // ----- spinlock.c

    /** spinlock_acquire up to its loop; acquiring a lock the cpu already has panics. */
    method StartAcquire(c: nat, l: nat) returns (ok: bool)
      requires Valid() && c < |cpus| && l in locks && cpus[c].spinning == None
      modifies this`cpus, this`threads
      ensures ok <==> locks[l] != Some(c)
      ensures ok ==> Valid() && cpus == old(cpus)[c := Cpu(old(cpus)[c].cur, old(cpus)[c].spinlocks + 1, true, Some(l))]
      ensures ok ==> threads == old(threads)[cpus[c].cur := Raised(old(threads)[cpus[c].cur])]
      ensures Next(old(Now()), Acquires(c, l)) == if ok then Now() else Panic
    {
      hide CpusOk, OthersParked, Held;
      ghost var cpus0, threads0 := cpus, threads;
      Account(c);
      var cur := cpus[c].cur;
      SplRaise(c);
      if locks[l] == Some(c) {
        return false;
      }
      cpus := cpus[c := cpus[c].(spinlocks := cpus[c].spinlocks + 1, spinning := Some(l))];
      OwnStep(cpus0, threads0, locks, c, cpus[c], threads[cur], locks);
      assert cpus == cpus0[c := cpus[c]];
      return true;
    }

    /** The test-and-set that finds the lock free. */
    method TakeLock(c: nat)
      requires Valid() && c < |cpus| && cpus[c].spinning.Some?
      requires cpus[c].spinning.value in locks && locks[cpus[c].spinning.value] == None
      modifies this`cpus, this`locks
      ensures Valid() && cpus == old(cpus)[c := old(cpus)[c].(spinning := None)]
      ensures locks == old(locks)[old(cpus)[c].spinning.value := Some(c)]
      ensures Now() == Next(old(Now()), Takes(c))
    {
      Taken(cpus, threads, locks, c);
      locks := locks[cpus[c].spinning.value := Some(c)];
      cpus := cpus[c := cpus[c].(spinning := None)];
    }

    /** spinlock_acquire of a lock that is free all along. */
    method AcquireFree(c: nat, l: nat)
      requires Valid() && Running(c) && l in locks && locks[l] == None && cpus[c].spinning == None
      modifies this
      ensures Valid() && locks == old(locks)[l := Some(c)]
      ensures cpus == old(cpus)[c := Cpu(old(cpus)[c].cur, old(cpus)[c].spinlocks + 1, true, None)]
      ensures threads == old(threads)[old(cpus)[c].cur := Raised(old(threads)[old(cpus)[c].cur])]
    {
      hide CpusOk, OthersParked;
      var ok := StartAcquire(c, l);
      TakeLock(c);
    }

    /** spinlock_release; it panics when the cpu does not have the lock. The count of locks it asserts
        to be positive is. */
    method ReleaseLock(c: nat, l: nat) returns (ok: bool)
      requires Valid() && Running(c) && l in locks && cpus[c].spinning == None
      modifies this`cpus, this`threads, this`locks
      ensures ok <==> old(locks)[l] == Some(c)
      ensures ok ==> Valid() && locks == old(locks)[l := None] && |cpus| == |old(cpus)|
      ensures ok ==> cpus == old(cpus)[c := Let(old(cpus)[c], old(threads)[old(cpus)[c].cur])]
      ensures ok ==> threads == old(threads)[old(cpus)[c].cur := Lowered(old(threads)[old(cpus)[c].cur])]
      ensures !ok ==> cpus == old(cpus) && threads == old(threads) && locks == old(locks)
      ensures Next(old(Now()), Releases(c, l)) == if ok then Now() else Panic
    {
      if locks[l] != Some(c) {
        return false;
      }
      hide CpusOk, OthersParked, Held, AccountOk;
      Released(cpus, threads, locks, c, l);
      assert cpus[c].spinlocks > 0;
      cpus := cpus[c := cpus[c].(spinlocks := cpus[c].spinlocks - 1)];
      locks := locks[l := None];
      SplLower(c);
      assert cpus[c] == Let(old(cpus)[c], old(threads)[old(cpus)[c].cur]);
      assert cpus == old(cpus)[c := cpus[c]];
      return true;
    }

    // ----- thread.c

    /** switchframe_switch in thread_switch: at splhigh, with the run queue lock and no other. */
    method Switch(c: nat, next: tid)
      requires Valid() && c < |cpus| && cpus[c].spinning == None && cpus[c].spinlocks == 1
      requires cpus[c].cur in threads && threads[cpus[c].cur].curspl == IPL_HIGH
      requires next in threads && forall d :: 0 <= d < |cpus| ==> d == c || cpus[d].cur != next
      modifies this`cpus
      ensures Valid() && cpus == old(cpus)[c := old(cpus)[c].(cur := next)] && cpus[c].irqOff
      ensures Now() == Next(old(Now()), Switches(c, next))
    {
      Switched(cpus, threads, locks, c, next);
      cpus := cpus[c := cpus[c].(cur := next)];
    }

    // ----- thread_switch

    /** Up to the lock of the run queue, for which it may have to wait: by a thread whose cpu has no spinlock, or the
        one of the channel it goes to sleep on. */
    method SwitchBegin(c: nat, runqueue: nat) returns (spl: nat)
      requires Valid() && c < |cpus| && cpus[c].spinning == None && runqueue in locks && locks[runqueue] != Some(c)
      modifies this`cpus, this`threads
      ensures Valid() && |cpus| == |old(cpus)| && cpus[c].cur == old(cpus)[c].cur
      ensures cpus[c].cur in old(threads) && spl == old(threads)[cpus[c].cur].curspl
      ensures cpus == old(cpus)[c := Cpu(cpus[c].cur, old(cpus)[c].spinlocks + 1, true, Some(runqueue))]
      ensures threads == old(threads)[cpus[c].cur := Thread(IPL_HIGH, old(cpus)[c].spinlocks + 2)]
    {
      hide CpusOk, OthersParked, Held;
      Account(c);
      spl := Splx(c, IPL_HIGH);
      var ok := StartAcquire(c, runqueue);
      assert cpus == old(cpus)[c := cpus[c]];
      assert threads == old(threads)[cpus[c].cur := threads[cpus[c].cur]];
    }

    /** With the lock free: take it, release the channel's, and switch. It is entered as Switch demands, and the
        thread that leaves is left parked. */
    method SwitchAway(c: nat, runqueue: nat, lk: Option<nat>, next: tid)
      requires Valid() && c < |cpus| && cpus[c].spinning == Some(runqueue) && runqueue in locks
               && locks[runqueue] == None
      requires cpus[c].spinlocks == (if lk.Some? then 2 else 1)
               && (lk.Some? ==> lk.value in locks && locks[lk.value] == Some(c))
      requires cpus[c].cur in threads && threads[cpus[c].cur].curspl == IPL_HIGH
      requires next in threads && forall d :: 0 <= d < |cpus| ==> d == c || cpus[d].cur != next
      modifies this
      ensures Valid() && old(cpus)[c].cur in threads && threads[old(cpus)[c].cur] == Thread(IPL_HIGH, 2)
      ensures cpus == old(cpus)[c := Cpu(next, 1, true, None)]
      ensures locks == (if lk.Some?
                        then old(locks)[runqueue := Some(c)][lk.value := None] else old(locks)[runqueue := Some(c)])
      ensures next != old(cpus)[c].cur ==> threads[next] == old(threads)[next]
    {
      hide CpusOk, OthersParked, Held;
      Account(c);
      TakeLock(c);
      if lk.Some? {
        Account(c);
        var ok := ReleaseLock(c, lk.value);
      }
      Account(c);
      Switch(c, next);
      Account(c);
      assert cpus == old(cpus)[c := cpus[c]];
    }

    /** The rest, on whatever cpu the thread is switched to again, with that cpu's run queue lock: it gets back the
        level it came with, and interrupts are on again if they were. */
    method SwitchEnd(c: nat, runqueue: nat, spl: nat)
      requires Valid() && c < |cpus| && cpus[c].spinning == None && cpus[c].spinlocks == 1
      requires runqueue in locks && locks[runqueue] == Some(c) && (spl == IPL_NONE || spl == IPL_HIGH)
      modifies this
      ensures Valid() && locks == old(locks)[runqueue := None]
      ensures cpus == old(cpus)[c := Cpu(old(cpus)[c].cur, 0, spl == IPL_HIGH, None)]
      ensures threads == old(threads)[cpus[c].cur := Thread(spl, spl)]
    {
      hide CpusOk, OthersParked, Held;
      Account(c);
      var ok := ReleaseLock(c, runqueue);
      Account(c);
      var was := Splx(c, spl);
      assert cpus == old(cpus)[c := cpus[c]];
      assert threads == old(threads)[cpus[c].cur := threads[cpus[c].cur]];
    }

    // ----- new threads

    /** thread_create and thread_fork's extra raise, for the lock the new thread comes out holding. */
    method Fork(c: nat, t: tid)
      requires Valid() && c < |cpus| && t !in threads
      modifies this`threads
      ensures Valid() && threads == old(threads)[t := Thread(IPL_HIGH, 2)]
      ensures old(cpus)[c].spinning == None ==> Now() == Next(old(Now()), Forks(c, t))
    {
      threads := threads[t := Thread(IPL_HIGH, 1)];
      threads := threads[t := threads[t].(iplhigh := threads[t].iplhigh + 1)];
      assert forall u :: u in threads && u != t ==> u in old(threads);
    }

    /** Interrupts, at the top of any cpu. */
    lemma InterruptsOff(c: nat)
      requires Valid() && c < |cpus|
      ensures cpus[c].irqOff <==> threads[cpus[c].cur].curspl == IPL_HIGH || cpus[c].spinlocks > 0
      ensures threads[cpus[c].cur].iplhigh == cpus[c].spinlocks + threads[cpus[c].cur].curspl >= 0
    {
      Account(c);
    }
  }

  // ----- runs

  datatype Step = DoSplx(c: nat, spl: nat) | Acquires(c: nat, l: nat) | Takes(c: nat) | Releases(c: nat, l: nat)
                | Switches(c: nat, next: tid) | Forks(c: nat, t: tid)

  datatype State = State(cpus: seq<Cpu>, threads: map<tid, Thread>, locks: map<nat, Option<nat>>) | Panic

  ghost predicate StateOk(s: State) {
    s.State? ==> CpusOk(s.cpus, s.threads, s.locks) && OthersParked(s.cpus, s.threads)
  }

  /** The cpu can take the step: it does not spin on a lock, or the lock is free; a context switch is
      entered as thread_switch does, at splhigh with the run queue lock alone. */
  predicate CanTake(s: State, e: Step) {
    && s.State? && e.c < |s.cpus| && s.cpus[e.c].cur in s.threads && (s.cpus[e.c].spinning == None || e.Takes?)
    && match e
       case DoSplx(c, spl) => spl == IPL_NONE || spl == IPL_HIGH
       case Acquires(c, l) => l in s.locks
       case Takes(c) => s.cpus[c].spinning.Some? && s.cpus[c].spinning.value in s.locks
                        && s.locks[s.cpus[c].spinning.value] == None
       case Releases(c, l) => l in s.locks
       case Switches(c, next) => s.cpus[c].spinlocks == 1 && s.threads[s.cpus[c].cur].curspl == IPL_HIGH
                                 && next in s.threads && forall d :: 0 <= d < |s.cpus| ==>
                                      d == c || s.cpus[d].cur != next
       case Forks(c, t) => t !in s.threads
  }

  /** What the step does. */
  function Next(s: State, e: Step): State {
    if !CanTake(s, e) then
      s
    else
      var cpu := s.cpus[e.c];
      var th := s.threads[cpu.cur];
      match e
      case DoSplx(c, spl) =>
        s.(cpus := s.cpus[c := cpu.(irqOff := cpu.spinlocks > 0 || spl == IPL_HIGH)],
           threads := s.threads[cpu.cur := Thread(spl, cpu.spinlocks + spl)])
      case Acquires(c, l) =>
        if s.locks[l] == Some(c) then Panic
        else s.(cpus := s.cpus[c := Cpu(cpu.cur, cpu.spinlocks + 1, true, Some(l))],
                threads := s.threads[cpu.cur := Raised(th)])
      case Takes(c) =>
        s.(cpus := s.cpus[c := cpu.(spinning := None)], locks := s.locks[cpu.spinning.value := Some(c)])
      case Releases(c, l) =>
        if s.locks[l] != Some(c) then Panic
        else State(s.cpus[c := Let(cpu, th)], s.threads[cpu.cur := Lowered(th)], s.locks[l := None])
      case Switches(c, next) => s.(cpus := s.cpus[c := cpu.(cur := next)])
      case Forks(c, t) => s.(threads := s.threads[t := Thread(IPL_HIGH, 2)])
  }

  function Reached(s: State, steps: seq<Step>): State {
    if steps == [] then s else Next(Reached(s, steps[..|steps| - 1]), steps[|steps| - 1])
  }

  lemma OneMore(s: State, steps: seq<Step>, i: nat)
    requires i < |steps|
    ensures Reached(s, steps[..i + 1]) == Next(Reached(s, steps[..i]), steps[i])
  {
    assert steps[..i + 1][..i] == steps[..i];
  }

  /** One step, or the panic it ends in. */
  method Take(m: Machine, e: Step) returns (ok: bool)
    requires m.Valid() && CanTake(m.Now(), e)
    modifies m
    ensures Next(old(m.Now()), e) == if ok then m.Now() else Panic
    ensures ok ==> m.Valid()
  {
    hide CpusOk, OthersParked;
    ok := true;
    match e {
      case DoSplx(c, spl) => var ret := m.Splx(c, spl);
      case Acquires(c, l) => ok := m.StartAcquire(c, l);
      case Takes(c) => m.TakeLock(c);
      case Releases(c, l) => ok := m.ReleaseLock(c, l);
      case Switches(c, next) => m.Switch(c, next);
      case Forks(c, t) => m.Fork(c, t);
    }
  }

  /** Any order of spl calls, acquires and releases, context switches and forks, on any number of cpus:
      the accounts are right in every state on the way, up to the first panic. */
  method Run(m: Machine, steps: seq<Step>) returns (ok: bool)
    requires m.Valid()
    modifies m
    ensures Reached(old(m.Now()), steps) == if ok then m.Now() else Panic
    ensures forall i :: 0 <= i <= |steps| ==> StateOk(Reached(old(m.Now()), steps[..i]))
  {
    hide Next, CanTake, CpusOk, OthersParked;
    ghost var was := m.Now();
    ok := true;
    for i := 0 to |steps|
      invariant Reached(was, steps[..i]) == if ok then m.Now() else Panic
      invariant ok ==> m.Valid()
      invariant forall j :: 0 <= j <= i ==> StateOk(Reached(was, steps[..j]))
    {
      OneMore(was, steps, i);
      if ok && CanTake(m.Now(), steps[i]) {
        ok := Take(m, steps[i]);
      } else {
        Stays(if ok then m.Now() else Panic, steps[i]);
      }
    }
    assert steps[..|steps|] == steps;
  }

  lemma Stays(s: State, e: Step)
    requires s == Panic || !CanTake(s, e)
    ensures Next(s, e) == s
  {
  }

  /** The calls spl.c gives as its example of locks and levels that do not nest: afterwards everything is
      as it was. */
  method RedAndBlue(m: Machine, c: nat, red: nat, blue: nat)
    requires m.Valid() && c < |m.cpus| && m.cpus[c].spinning == None
    requires red in m.locks && blue in m.locks && red != blue && m.locks[red] == m.locks[blue] == None
    modifies m
    ensures m.Valid() && m.cpus == old(m.cpus) && m.threads == old(m.threads) && m.locks == old(m.locks)
  {
    hide CpusOk, OthersParked, Held, Next, CanTake, Machine.Valid, Machine.Now;
    m.Account(c);
    m.AcquireFree(c, red);
    var s := m.Splx(c, IPL_HIGH);
    m.AcquireFree(c, blue);
    s := m.Splx(c, s);
    var ok := m.ReleaseLock(c, red);
    ok := m.ReleaseLock(c, blue);
    m.Account(c);
    assert m.cpus[c] == old(m.cpus)[c];
    assert m.locks == old(m.locks);
  }

  lemma SomeHeld(locks: map<nat, Option<nat>>, l: nat, c: nat)
    requires l in locks && locks[l] == Some(c)
    ensures |Held(locks, c)| > 0
  {
    assert l in Held(locks, c);
  }

  lemma Taken(cpus: seq<Cpu>, threads: map<tid, Thread>, locks: map<nat, Option<nat>>, c: nat)
    requires CpusOk(cpus, threads, locks) && OthersParked(cpus, threads) && c < |cpus| && cpus[c].spinning.Some?
    requires cpus[c].spinning.value in locks && locks[cpus[c].spinning.value] == None
    ensures CpusOk(cpus[c := cpus[c].(spinning := None)], threads, locks[cpus[c].spinning.value := Some(c)])
    ensures OthersParked(cpus[c := cpus[c].(spinning := None)], threads)
  {
    var l, cur := cpus[c].spinning.value, cpus[c].cur;
    forall d | 0 <= d < |cpus|
      ensures |Held(locks[l := Some(c)], d)| == |Held(locks, d)| + if d == c then 1 else 0
    {
      HeldChange(locks, l, c, d);
    }
    hide Held;
    assert AccountOk(cpus[c], threads[cur], |Held(locks, c)|);
    OwnStep(cpus, threads, locks, c, cpus[c].(spinning := None), threads[cur], locks[l := Some(c)]);
    assert threads[cur := threads[cur]] == threads;
  }

  lemma Released(cpus: seq<Cpu>, threads: map<tid, Thread>, locks: map<nat, Option<nat>>, c: nat, l: nat)
    requires CpusOk(cpus, threads, locks) && OthersParked(cpus, threads) && c < |cpus| && cpus[c].spinning == None
    requires l in locks && locks[l] == Some(c)
    ensures CpusOk(cpus[c := Let(cpus[c], threads[cpus[c].cur])], threads[cpus[c].cur := Lowered(threads[cpus[c].cur])],
                   locks[l := None])
    ensures OthersParked(cpus[c := Let(cpus[c], threads[cpus[c].cur])],
                         threads[cpus[c].cur := Lowered(threads[cpus[c].cur])])
    ensures cpus[c].irqOff && cpus[c].spinlocks > 0 && threads[cpus[c].cur].iplhigh >= 1
  {
    var th := threads[cpus[c].cur];
    forall d | 0 <= d < |cpus|
      ensures |Held(locks[l := None], d)| == |Held(locks, d)| - if d == c then 1 else 0
    {
      HeldChange(locks, l, c, d);
    }
    SomeHeld(locks, l, c);
    hide Held;
    assert AccountOk(cpus[c], th, |Held(locks, c)|);
    OwnStep(cpus, threads, locks, c, Let(cpus[c], th), Lowered(th), locks[l := None]);
  }

  lemma Switched(cpus: seq<Cpu>, threads: map<tid, Thread>, locks: map<nat, Option<nat>>, c: nat, next: tid)
    requires CpusOk(cpus, threads, locks) && OthersParked(cpus, threads) && c < |cpus|
    requires cpus[c].spinning == None && cpus[c].spinlocks == 1 && threads[cpus[c].cur].curspl == IPL_HIGH
    requires next in threads && forall d :: 0 <= d < |cpus| ==> d == c || cpus[d].cur != next
    ensures CpusOk(cpus[c := cpus[c].(cur := next)], threads, locks)
            && OthersParked(cpus[c := cpus[c].(cur := next)], threads)
    ensures cpus[c].irqOff
  {
    hide Held;
    var cpus' := cpus[c := cpus[c].(cur := next)];
    assert AccountOk(cpus[c], threads[cpus[c].cur], |Held(locks, c)|);
    if next != cpus[c].cur {
      assert Parked(threads[next]);
    }
    forall t | t in threads && (forall d :: 0 <= d < |cpus'| ==> cpus'[d].cur != t)
      ensures Parked(threads[t])
    {
      assert cpus'[c].cur != t;
      if t != cpus[c].cur {
        assert forall d :: 0 <= d < |cpus| ==> cpus[d].cur == if d == c then cpus[c].cur else cpus'[d].cur;
      }
    }
  }

  /** What other cpus do, while one waits for a lock or its thread does not run, leaves its account alone, the locks
      it has, and the threads that do not run. */
  lemma OthersLeaveIt(s: State, e: Step, c: nat, t: tid, l: nat)
    requires s.State? && StateOk(s) && c < |s.cpus| && e.c != c && Next(s, e).State?
    ensures var s' := Next(s, e);
            && |s'.cpus| == |s.cpus| && s'.cpus[c] == s.cpus[c]
            && (l in s.locks && s.locks[l] == Some(c) ==> l in s'.locks && s'.locks[l] == Some(c))
            && (s.cpus[c].cur in s.threads
                ==> s.cpus[c].cur in s'.threads && s'.threads[s.cpus[c].cur] == s.threads[s.cpus[c].cur])
            && (t in s.threads && (forall d :: 0 <= d < |s.cpus| ==> s.cpus[d].cur != t)
                ==> t in s'.threads && s'.threads[t] == s.threads[t])
  {
    hide AccountOk, Held, OthersParked, Let;
  }
}
