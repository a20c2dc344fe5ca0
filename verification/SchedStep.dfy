/** What each step of a cpu does to the scheduler's data, as a function of the state before it. */
module SchedStep {
  import opened SchedState

  /** The steps cpu c can take. */
  datatype Step =
    | Enters(c: nat, cause: Cause)
    | Places(c: nat)
    | DropsLock(c: nat)
    | SetsState(c: nat)
    | Picks(c: nat)
    | Unidles(c: nat)
    | Finishes(c: nat)
    | Exorcises(c: nat)
    | LocksWchan(c: nat, w: nat)
    | UnlocksWchan(c: nat, w: nat)
    | TakesSleeper(c: nat, w: nat)
    | MakesRunnable(c: nat)
    | Creates(c: nat, t: tid)
    | Starts(c: nat, i: nat)
    | Evicts(c: nat)
    | Emigrates(c: nat, d: nat)
    | Returns(c: nat)

  /** The run queue lock of the cpu a thread belongs to is free. */
  predicate QueueFree(cpus: seq<Cpu>, threads: map<tid, Thread>, t: tid) {
    t in threads && threads[t].cpu < |cpus| && !cpus[threads[t].cpu].locked
  }

  /** The cpu is where its code can take the step, and the locks it needs are free or its own. */
  predicate Enabled(cpus: seq<Cpu>, threads: map<tid, Thread>, wchans: map<nat, Wchan>, newborn: seq<tid>, e: Step) {
    && e.c < |cpus| && cpus[e.c].curthread in threads
    && var cpu := cpus[e.c];
       match e
       case Enters(c, cause) =>
         && (cpu.isidle || (cpu.pc == Running && !cpu.locked))
         && (cause.Sleep? ==> cause.wc in wchans && wchans[cause.wc].lock == HeldBy(c))
       case Places(c) => cpu.pc.Locked? && (cpu.pc.cause.Sleep? ==> cpu.pc.cause.wc in wchans)
       case DropsLock(c) => cpu.pc.Queued? && cpu.pc.wc in wchans
       case SetsState(c) => cpu.pc.Placed?
       case Picks(c) => cpu.pc == Picking
       case Unidles(c) => cpu.pc == Idle && !cpu.locked
       case Finishes(c) => cpu.pc == Tail
       case Exorcises(c) => cpu.pc == Reaping
       case LocksWchan(c, w) => AtLarge(cpu) && w in wchans && wchans[w].lock == Nobody
       case UnlocksWchan(c, w) => AtLarge(cpu) && w in wchans && wchans[w].lock == HeldBy(c)
       case TakesSleeper(c, w) => AtLarge(cpu) && w in wchans && wchans[w].lock == HeldBy(c) && wchans[w].queue != []
       case MakesRunnable(c) => AtLarge(cpu) && cpu.woken != [] && QueueFree(cpus, threads, cpu.woken[0])
       case Creates(c, t) => cpu.pc == Running && t !in threads
       case Starts(c, i) => cpu.pc == Running && i < |newborn| && QueueFree(cpus, threads, newborn[i])
       case Evicts(c) => AtLarge(cpu) && cpu.runqueue != []
       case Emigrates(c, d) => AtLarge(cpu) && d < |cpus| && d != c && cpu.victims != [] && !cpus[d].locked
       case Returns(c) => AtLarge(cpu) && cpu.victims != []
  }

  /** In no part of thread_switch that holds the run queue lock: running a thread, or idle and perhaps in
      an interrupt handler. */
  predicate AtLarge(cpu: Cpu) {
    cpu.pc == Running || cpu.pc == Idle
  }

  /** Where a thread goes that leaves its cpu. */
  function Destination(c: nat, cause: Cause): Place {
    match cause
    case Yield => OnRunQueue(c)
    case Sleep(w) => OnWchan(w)
    case Exit => OnZombies(c)
  }

  /** place is the place of every thread; booting are the boot threads that were never switched to. */
  datatype Sched = Sched(cpus: seq<Cpu>, threads: map<tid, Thread>, wchans: map<nat, Wchan>, newborn: seq<tid>,
                         place: map<tid, Place>, booting: set<tid>)

  ghost predicate StateOk(s: Sched) {
    SchedOk(s.cpus, s.wchans, s.newborn, s.place, s.booting, s.threads)
  }

  /** The current thread of cpu c goes to the end of the list it is bound for. */
  function Left(s: Sched, c: nat): Sched
    requires c < |s.cpus| && s.cpus[c].pc.Locked? && s.cpus[c].curthread in s.threads
    requires s.cpus[c].pc.cause.Sleep? ==> s.cpus[c].pc.cause.wc in s.wchans
  {
    var cpu, cur := s.cpus[c], s.cpus[c].curthread;
    var s' := s.(place := s.place[cur := Destination(c, cpu.pc.cause)], booting := s.booting - {cur});
    match cpu.pc.cause
    case Yield =>
      s'.(cpus := s.cpus[c := cpu.(pc := Placed(S_READY), runqueue := cpu.runqueue + [cur])],
          threads := s.threads[cur := s.threads[cur].(state := S_READY)])
    case Sleep(w) =>
      s'.(cpus := s.cpus[c := cpu.(pc := Queued(w))],
          wchans := s.wchans[w := s.wchans[w].(queue := s.wchans[w].queue + [cur])])
    case Exit =>
      s'.(cpus := s.cpus[c := cpu.(pc := Placed(S_ZOMBIE), zombies := cpu.zombies + [cur])])
  }

  /** Thread t, off the list it was on, is ready and last on the run queue of cpu d. */
  function Queue(s: Sched, t: tid, d: nat): Sched
    requires d < |s.cpus|
  {
    s.(cpus := s.cpus[d := s.cpus[d].(runqueue := s.cpus[d].runqueue + [t])],
       threads := s.threads[t := Thread(S_READY, d)], place := s.place[t := OnRunQueue(d)])
  }

  /** What the step does. */
  function Next(s: Sched, e: Step): Sched {
    if !Enabled(s.cpus, s.threads, s.wchans, s.newborn, e) then
      s
    else
      var cpu := s.cpus[e.c];
      var cur := cpu.curthread;
      match e
      case Enters(c, cause) =>
        if cpu.isidle then s else s.(cpus := s.cpus[c := cpu.(pc := Locked(cause), locked := true)])
      case Places(c) =>
        if cpu.pc.cause == Yield && cpu.runqueue == []
          then s.(cpus := s.cpus[c := cpu.(pc := Running, locked := false)])
        else Left(s, c)
      case DropsLock(c) =>
        s.(cpus := s.cpus[c := cpu.(pc := Placed(S_SLEEP))],
           wchans := s.wchans[cpu.pc.wc := s.wchans[cpu.pc.wc].(lock := Nobody)])
      case SetsState(c) =>
        s.(cpus := s.cpus[c := cpu.(pc := Picking, isidle := true)],
           threads := s.threads[cur := s.threads[cur].(state := cpu.pc.next)])
      case Picks(c) =>
        if cpu.runqueue == [] then
          s.(cpus := s.cpus[c := cpu.(pc := Idle, locked := false)])
        else
          s.(cpus := s.cpus[c := cpu.(pc := Tail, isidle := false, curthread := cpu.runqueue[0],
                                      runqueue := cpu.runqueue[1..])],
             place := s.place[cpu.runqueue[0] := OnCpu(c)])
      case Unidles(c) => s.(cpus := s.cpus[c := cpu.(pc := Picking, locked := true)])
      case Finishes(c) =>
        s.(cpus := s.cpus[c := cpu.(pc := Reaping, locked := false)],
           threads := s.threads[cur := s.threads[cur].(state := S_RUN)])
      case Exorcises(c) =>
        var gone := set z | z in cpu.zombies;
        s.(cpus := s.cpus[c := cpu.(pc := Running, zombies := [])], threads := s.threads - gone,
           place := s.place - gone)
      case LocksWchan(c, w) => s.(wchans := s.wchans[w := s.wchans[w].(lock := HeldBy(c))])
      case UnlocksWchan(c, w) => s.(wchans := s.wchans[w := s.wchans[w].(lock := Nobody)])
      case TakesSleeper(c, w) =>
        var t := s.wchans[w].queue[0];
        s.(wchans := s.wchans[w := s.wchans[w].(queue := s.wchans[w].queue[1..])],
           cpus := s.cpus[c := cpu.(woken := cpu.woken + [t])], place := s.place[t := Woken(c)])
      case MakesRunnable(c) =>
        Queue(s.(cpus := s.cpus[c := cpu.(woken := cpu.woken[1..])]), cpu.woken[0], s.threads[cpu.woken[0]].cpu)
      case Creates(c, t) =>
        s.(threads := s.threads[t := Thread(S_READY, s.threads[cur].cpu)], newborn := s.newborn + [t],
           place := s.place[t := Newborn])
      case Starts(c, i) =>
        Queue(s.(newborn := s.newborn[..i] + s.newborn[i + 1..]), s.newborn[i], s.threads[s.newborn[i]].cpu)
      case Evicts(c) =>
        var n := |cpu.runqueue| - 1;
        s.(cpus := s.cpus[c := cpu.(runqueue := cpu.runqueue[..n], victims := [cpu.runqueue[n]] + cpu.victims)],
           place := s.place[cpu.runqueue[n] := Victim(c)])
      case Emigrates(c, d) =>
        if cpu.victims[0] == cur then s.(cpus := s.cpus[c := cpu.(victims := cpu.victims[1..] + [cur])])
        else Queue(s.(cpus := s.cpus[c := cpu.(victims := cpu.victims[1..])]), cpu.victims[0], d)
      case Returns(c) =>
        var t := cpu.victims[0];
        s.(cpus := s.cpus[c := cpu.(victims := cpu.victims[1..], runqueue := cpu.runqueue + [t])],
           place := s.place[t := OnRunQueue(c)])
  }

  // ----- Next, step by step

  lemma NextPlaces(s: Sched, c: nat)
    requires c < |s.cpus| && s.cpus[c].curthread in s.threads && s.cpus[c].pc.Locked?
    requires s.cpus[c].pc.cause.Sleep? ==> s.cpus[c].pc.cause.wc in s.wchans
    ensures Next(s, Places(c))
            == if s.cpus[c].pc.cause == Yield && s.cpus[c].runqueue == []
               then s.(cpus := s.cpus[c := s.cpus[c].(pc := Running, locked := false)])
               else Left(s, c)
  {
    hide Left;
  }

  lemma NextTakesSleeper(s: Sched, c: nat, w: nat)
    requires c < |s.cpus| && s.cpus[c].curthread in s.threads && AtLarge(s.cpus[c])
    requires w in s.wchans && s.wchans[w].lock == HeldBy(c) && s.wchans[w].queue != []
    ensures var t := s.wchans[w].queue[0];
            Next(s, TakesSleeper(c, w))
            == s.(wchans := s.wchans[w := s.wchans[w].(queue := s.wchans[w].queue[1..])],
                  cpus := s.cpus[c := s.cpus[c].(woken := s.cpus[c].woken + [t])], place := s.place[t := Woken(c)])
  {
  }

  lemma NextMakesRunnable(s: Sched, c: nat)
    requires c < |s.cpus| && s.cpus[c].curthread in s.threads && AtLarge(s.cpus[c])
    requires s.cpus[c].woken != [] && QueueFree(s.cpus, s.threads, s.cpus[c].woken[0])
    ensures var t := s.cpus[c].woken[0];
            Next(s, MakesRunnable(c))
              == Queue(s.(cpus := s.cpus[c := s.cpus[c].(woken := s.cpus[c].woken[1..])]), t, s.threads[t].cpu)
  {
  }

  lemma NextStarts(s: Sched, c: nat, i: nat)
    requires c < |s.cpus| && s.cpus[c].curthread in s.threads && s.cpus[c].pc == Running
    requires i < |s.newborn| && QueueFree(s.cpus, s.threads, s.newborn[i])
    ensures var t := s.newborn[i];
            Next(s, Starts(c, i)) == Queue(s.(newborn := s.newborn[..i] + s.newborn[i + 1..]), t, s.threads[t].cpu)
  {
  }

  lemma NextEvicts(s: Sched, c: nat)
    requires c < |s.cpus| && s.cpus[c].curthread in s.threads && AtLarge(s.cpus[c]) && s.cpus[c].runqueue != []
    ensures var q := s.cpus[c].runqueue; var n := |q| - 1;
            Next(s, Evicts(c))
            == s.(cpus := s.cpus[c := s.cpus[c].(runqueue := q[..n], victims := [q[n]] + s.cpus[c].victims)],
                  place := s.place[q[n] := Victim(c)])
  {
  }

  lemma NextEmigrates(s: Sched, c: nat, d: nat)
    requires c < |s.cpus| && s.cpus[c].curthread in s.threads && AtLarge(s.cpus[c]) && s.cpus[c].victims != []
    requires d < |s.cpus| && d != c && !s.cpus[d].locked
    ensures var v := s.cpus[c].victims;
            Next(s, Emigrates(c, d))
            == if v[0] == s.cpus[c].curthread then s.(cpus := s.cpus[c := s.cpus[c].(victims := v[1..] + [v[0]])])
               else Queue(s.(cpus := s.cpus[c := s.cpus[c].(victims := v[1..])]), v[0], d)
  {
  }

  lemma NextReturns(s: Sched, c: nat)
    requires c < |s.cpus| && s.cpus[c].curthread in s.threads && AtLarge(s.cpus[c]) && s.cpus[c].victims != []
    ensures var v := s.cpus[c].victims;
            Next(s, Returns(c))
            == s.(cpus := s.cpus[c := s.cpus[c].(victims := v[1..], runqueue := s.cpus[c].runqueue + [v[0]])],
                  place := s.place[v[0] := OnRunQueue(c)])
  {
  }

  function Reached(s: Sched, steps: seq<Step>): Sched {
    if steps == [] then s else Next(Reached(s, steps[..|steps| - 1]), steps[|steps| - 1])
  }

  lemma OneMore(s: Sched, steps: seq<Step>, i: nat)
    requires i < |steps|
    ensures Reached(s, steps[..i + 1]) == Next(Reached(s, steps[..i]), steps[i])
  {
    assert steps[..i + 1][..i] == steps[..i];
  }

  lemma Stays(s: Sched, e: Step)
    requires !Enabled(s.cpus, s.threads, s.wchans, s.newborn, e)
    ensures Next(s, e) == s
  {
  }
}
