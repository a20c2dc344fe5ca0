/** thread.c as a machine of cpus. A step is what one cpu does between two points where another could
    see the difference: thread_switch is eight steps, of which all but the first and the last run with
    the cpu's run queue lock held. */
module Scheduler {
  import opened Sequences
  import opened SchedState
  import opened SchedStep

  class Machine {
    var cpus: seq<Cpu>
    var threads: map<tid, Thread>
    var wchans: map<nat, Wchan>
    /** Threads thread_fork has made and not yet made runnable. */
    var newborn: seq<tid>
    ghost var place: map<tid, Place>
    /** Boot threads that were never switched to. */
    ghost var booting: set<tid>

    ghost function Now(): Sched reads this {
      Sched(cpus, threads, wchans, newborn, place, booting)
    }

    ghost predicate Inv() reads this {
      SchedOk(cpus, wchans, newborn, place, booting, threads)
    }

    /** n cpus, each running its boot thread, which thread_create left in state S_READY; the wait
        channels are there from the start. */
    constructor (n: nat, channels: set<nat>)
      ensures Inv() && |cpus| == n && forall c :: 0 <= c < n ==>
                cpus[c] == Cpu(Running, false, c, false, [], [], [], [])
      ensures threads == map c: nat | 0 <= c < n :: Thread(S_READY, c)
      ensures place == (map c: nat | 0 <= c < n :: OnCpu(c)) && booting == place.Keys && newborn == []
      ensures wchans == map w | w in channels :: Wchan([], Nobody)
    {
      cpus := seq(n, (c: nat) => Cpu(Running, false, c, false, [], [], [], []));
      threads := map c: nat | 0 <= c < n :: Thread(S_READY, c);
      wchans, newborn := map w | w in channels :: Wchan([], Nobody), [];
      place := map c: nat | 0 <= c < n :: OnCpu(c);
      booting := (map c: nat | 0 <= c < n :: OnCpu(c)).Keys;
    }

    // ----- thread_switch

    /** Up to taking the run queue lock; an interrupt of the idle loop goes no further. */
    method EnterSwitch(c: nat, cause: Cause)
      requires Inv() && c < |cpus| && (cpus[c].isidle || (cpus[c].pc == Running && !cpus[c].locked))
      requires cause.Sleep? ==> cause.wc in wchans && wchans[cause.wc].lock == HeldBy(c)
      modifies this`cpus
      ensures Inv() && Now() == Next(old(Now()), Enters(c, cause))
      ensures cpus == if old(cpus[c].isidle) then old(cpus)
                      else old(cpus)[c := old(cpus[c]).(pc := Locked(cause), locked := true)]
    {
      hide SchedOk, Spread, ThreadsOk, CpusOk, LocksOk, Holds, Distinct, Removed, ChangedOnly;
      if cpus[c].isidle {
        return;
      }
      CpuIs(cpus, wchans, newborn, place, booting, threads, c);
      SameListsStep(cpus, wchans, newborn, place, booting, threads, c, cpus[c].(pc := Locked(cause), locked := true),
                    threads[cpus[c].curthread]);
      cpus := cpus[c := cpus[c].(pc := Locked(cause), locked := true)];
    }

    /** With the lock: there is nothing else to run, or the thread goes to its place. */
    method PlaceSelf(c: nat)
      requires Inv() && c < |cpus| && cpus[c].pc.Locked?
      modifies this
      ensures Inv() && Now() == Next(old(Now()), Places(c))
      ensures |cpus| == |old(cpus)| && forall d :: 0 <= d < |cpus| && d != c ==> cpus[d] == old(cpus[d])
      ensures match old(cpus[c].pc.cause)
              case Yield =>
                && wchans == old(wchans)
                && if old(cpus[c].runqueue) == [] then cpus[c] == old(cpus[c]).(pc := Running, locked := false)
                   else cpus[c] == old(cpus[c]).(pc := Placed(S_READY),
                                                 runqueue := old(cpus[c].runqueue) + [old(cpus[c].curthread)])
              case Sleep(w) =>
                && cpus[c] == old(cpus[c]).(pc := Queued(w)) && w in old(wchans)
                && wchans == old(wchans)[w := Wchan(old(wchans)[w].queue + [old(cpus[c].curthread)], HeldBy(c))]
              case Exit =>
                && wchans == old(wchans)
                && cpus[c] == old(cpus[c]).(pc := Placed(S_ZOMBIE),
                                            zombies := old(cpus[c].zombies) + [old(cpus[c].curthread)])
    {
      hide SchedOk, Spread, ThreadsOk, CpusOk, LocksOk, Holds, Distinct, Removed, ChangedOnly, Next, Enabled;
      CpuIs(cpus, wchans, newborn, place, booting, threads, c);
      NextPlaces(Now(), c);
      var cpu, cur := cpus[c], cpus[c].curthread;
      match cpu.pc.cause {
        case Yield =>
          if cpu.runqueue == [] {
            SameListsStep(cpus, wchans, newborn, place, booting, threads, c, cpu.(pc := Running, locked := false),
                          threads[cur]);
            cpus := cpus[c := cpu.(pc := Running, locked := false)];
            return;
          }
          var cpu' := cpu.(pc := Placed(S_READY), runqueue := cpu.runqueue + [cur]);
          TailAdded(cpu.runqueue, cur);
          OneCpu(cpus, wchans, newborn, c, cpu', OnCpu(c), OnRunQueue(c));
          LeaveCpu(cpus, wchans, newborn, place, booting, threads, c, cpu', Thread(S_READY, c), OnRunQueue(c));
          threads := threads[cur := threads[cur].(state := S_READY)];
          cpus := cpus[c := cpu'];
        case Sleep(w) =>
          var wc' := wchans[w].(queue := wchans[w].queue + [cur]);
          TailAdded(wchans[w].queue, cur);
          LeaveToWchan(cpus, wchans, newborn, place, booting, threads, c, cpu.(pc := Queued(w)), w, wc');
          BothChange(cpus, wchans, newborn, c, cpu.(pc := Queued(w)), w, wc');
          wchans := wchans[w := wc'];
          cpus := cpus[c := cpu.(pc := Queued(w))];
        case Exit =>
          var cpu' := cpu.(pc := Placed(S_ZOMBIE), zombies := cpu.zombies + [cur]);
          TailAdded(cpu.zombies, cur);
          OneCpu(cpus, wchans, newborn, c, cpu', OnCpu(c), OnZombies(c));
          LeaveCpu(cpus, wchans, newborn, place, booting, threads, c, cpu', threads[cur], OnZombies(c));
          assert threads[cur := threads[cur]] == threads;
          cpus := cpus[c := cpu'];
      }
      place, booting := place[cur := Destination(c, cpu.pc.cause)], booting - {cur};
    }

    /** On the wait channel: release its lock. From here a wakeup can take the thread off the channel. */
    method DropWchanLock(c: nat)
      requires Inv() && c < |cpus| && cpus[c].pc.Queued?
      modifies this
      ensures Inv() && Now() == Next(old(Now()), DropsLock(c)) && cpus[c].locked
      ensures cpus == old(cpus)[c := old(cpus[c]).(pc := Placed(S_SLEEP))]
      ensures old(cpus[c].pc.wc) in wchans && wchans[old(cpus[c].pc.wc)].lock == Nobody
    {
      hide SchedOk, Spread, ThreadsOk, CpusOk, LocksOk, Holds, Distinct, Removed, ChangedOnly;
      CpuIs(cpus, wchans, newborn, place, booting, threads, c);
      var w, cpu' := cpus[c].pc.wc, cpus[c].(pc := Placed(S_SLEEP));
      SameListsStep(cpus, wchans, newborn, place, booting, threads, c, cpu', threads[cpus[c].curthread]);
      cpus := cpus[c := cpu'];
      SameQueue(cpus, wchans, newborn, place, booting, threads, c, w, wchans[w].(lock := Nobody));
      wchans := wchans[w := wchans[w].(lock := Nobody)];
    }

    /** cur->t_state = newstate, and the cpu counts as idle until it has found a thread. */
    method SetState(c: nat)
      requires Inv() && c < |cpus| && cpus[c].pc.Placed?
      modifies this
      ensures Inv() && Now() == Next(old(Now()), SetsState(c))
      ensures cpus == old(cpus)[c := old(cpus[c]).(pc := Picking, isidle := true)]
      ensures cpus[c].curthread in threads && threads[cpus[c].curthread].state == old(cpus[c].pc.next)
    {
      hide SchedOk, Spread, ThreadsOk, CpusOk, LocksOk, Holds, Distinct, Removed, ChangedOnly;
      CpuIs(cpus, wchans, newborn, place, booting, threads, c);
      var cur := cpus[c].curthread;
      var cpu', th' := cpus[c].(pc := Picking, isidle := true), threads[cur].(state := cpus[c].pc.next);
      SameListsStep(cpus, wchans, newborn, place, booting, threads, c, cpu', th');
      threads, cpus := threads[cur := th'], cpus[c := cpu'];
    }

    /** Take the first thread of the run queue and switch to it, or idle. The thread switched to is
        not on any other cpu: whoever queued it could not do so before the cpu it was on had saved it. */
    method Pick(c: nat)
      requires Inv() && c < |cpus| && cpus[c].pc == Picking
      modifies this
      ensures Inv() && Now() == Next(old(Now()), Picks(c))
      ensures |cpus| == |old(cpus)| && forall d :: 0 <= d < |cpus| && d != c ==> cpus[d] == old(cpus[d])
      ensures old(cpus[c].runqueue) == [] ==> cpus[c] == old(cpus[c]).(pc := Idle, locked := false)
      ensures old(cpus[c].runqueue) != [] ==>
                cpus[c].pc == Tail && !cpus[c].isidle && cpus[c].curthread == old(cpus[c].runqueue)[0]
                && cpus[c].runqueue == old(cpus[c].runqueue)[1..]
      ensures cpus[c].pc == Tail ==> forall d :: 0 <= d < |cpus| && d != c ==> cpus[d].curthread != cpus[c].curthread
    {
      hide SchedOk, Spread, ThreadsOk, CpusOk, LocksOk, Holds, Distinct, Removed, ChangedOnly;
      CpuIs(cpus, wchans, newborn, place, booting, threads, c);
      var cpu := cpus[c];
      if cpu.runqueue == [] {
        SameListsStep(cpus, wchans, newborn, place, booting, threads, c, cpu.(pc := Idle, locked := false),
                      threads[cpu.curthread]);
        cpus := cpus[c := cpu.(pc := Idle, locked := false)];
      } else {
        var next := cpu.runqueue[0];
        var cpu' := cpu.(runqueue := cpu.runqueue[1..], isidle := false, curthread := next, pc := Tail);
        EnterCpu(cpus, wchans, newborn, place, booting, threads, c, cpu', next);
        cpus, place := cpus[c := cpu'], place[next := OnCpu(c)];
      }
    }

    /** cpu_idle returned: lock the run queue and look again. */
    method Unidle(c: nat)
      requires Inv() && c < |cpus| && cpus[c].pc == Idle && !cpus[c].locked
      modifies this`cpus
      ensures Inv() && Now() == Next(old(Now()), Unidles(c))
      ensures cpus == old(cpus)[c := old(cpus[c]).(pc := Picking, locked := true)]
    {
      hide SchedOk, Spread, ThreadsOk, CpusOk, LocksOk, Holds, Distinct, Removed, ChangedOnly;
      CpuIs(cpus, wchans, newborn, place, booting, threads, c);
      SameListsStep(cpus, wchans, newborn, place, booting, threads, c, cpus[c].(pc := Picking, locked := true),
                    threads[cpus[c].curthread]);
      cpus := cpus[c := cpus[c].(pc := Picking, locked := true)];
    }

    /** The tail of thread_switch, and the same beginning of thread_startup: the new thread marks
        itself running and releases the lock. */
    method FinishSwitch(c: nat)
      requires Inv() && c < |cpus| && cpus[c].pc == Tail
      modifies this
      ensures Inv() && Now() == Next(old(Now()), Finishes(c))
      ensures cpus == old(cpus)[c := old(cpus[c]).(pc := Reaping, locked := false)]
      ensures cpus[c].curthread in threads && threads[cpus[c].curthread].state == S_RUN
    {
      hide SchedOk, Spread, ThreadsOk, CpusOk, LocksOk, Holds, Distinct, Removed, ChangedOnly;
      CpuIs(cpus, wchans, newborn, place, booting, threads, c);
      var cur := cpus[c].curthread;
      var cpu', th' := cpus[c].(pc := Reaping, locked := false), threads[cur].(state := S_RUN);
      SameListsStep(cpus, wchans, newborn, place, booting, threads, c, cpu', th');
      threads, cpus := threads[cur := th'], cpus[c := cpu'];
    }

    /** exorcise(): every thread destroyed is a zombie, and current on no cpu. */
    method Exorcise(c: nat)
      requires Inv() && c < |cpus| && cpus[c].pc == Reaping
      modifies this
      ensures Inv() && Now() == Next(old(Now()), Exorcises(c))
      ensures cpus == old(cpus)[c := old(cpus[c]).(pc := Running, zombies := [])]
      ensures forall t :: t in threads <==> t in old(threads) && t !in old(cpus[c].zombies)
    {
      hide SchedOk, Spread, ThreadsOk, CpusOk, LocksOk, Holds, Distinct, Removed, ChangedOnly;
      CpuIs(cpus, wchans, newborn, place, booting, threads, c);
      ghost var gone := set z | z in cpus[c].zombies;
      DestroyAll(c, gone);
      CpuIs(cpus, wchans, newborn, place, booting, threads, c);
      SameListsStep(cpus, wchans, newborn, place, booting, threads, c, cpus[c].(pc := Running),
                    threads[cpus[c].curthread]);
      cpus := cpus[c := cpus[c].(pc := Running)];
    }

    /** Its loop. */
    method DestroyAll(c: nat, ghost gone: set<tid>)
      requires Inv() && c < |cpus| && cpus[c].pc == Reaping && gone == set z | z in cpus[c].zombies
      modifies this
      ensures Inv() && cpus == old(cpus)[c := old(cpus)[c].(zombies := [])] && place == old(place) - gone
      ensures threads == old(threads) - gone && wchans == old(wchans) && newborn == old(newborn)
              && booting == old(booting)
    {
      hide SchedOk, Spread, ThreadsOk, CpusOk, LocksOk, Holds, Distinct, Removed, ChangedOnly;
      hide Next, Enabled;
      ghost var done: set<tid> := {};
      while cpus[c].zombies != []
        invariant Inv() && |cpus| == |old(cpus)| && cpus == old(cpus)[c := old(cpus)[c].(zombies := cpus[c].zombies)]
        invariant place == old(place) - done && threads == old(threads) - done
        invariant wchans == old(wchans) && newborn == old(newborn) && booting == old(booting)
        invariant forall z :: z in gone <==> z in done || z in cpus[c].zombies
        decreases |cpus[c].zombies|
      {
        var zs := cpus[c].zombies;
        Destroy(c);
        done := done + {zs[0]};
        assert forall x :: x in zs <==> x == zs[0] || x in zs[1..];
      }
      assert done == gone;
    }

    /** One turn of exorcise: thread_destroy of the first zombie. */
    method Destroy(c: nat)
      requires Inv() && c < |cpus| && cpus[c].pc == Reaping && cpus[c].zombies != []
      modifies this
      ensures Inv() && cpus == old(cpus)[c := old(cpus)[c].(zombies := old(cpus[c].zombies)[1..])]
      ensures place == old(place) - {old(cpus[c].zombies[0])} && old(cpus[c].zombies[0]) !in cpus[c].zombies
      ensures threads == old(threads) - {old(cpus[c].zombies[0])} && wchans == old(wchans) && newborn == old(newborn)
              && booting == old(booting)
      ensures old(cpus[c].zombies[0]) in old(threads) && old(threads)[old(cpus[c].zombies[0])].state == S_ZOMBIE
      ensures forall d :: 0 <= d < |cpus| ==> cpus[d].curthread != old(cpus[c].zombies[0])
    {
      hide SchedOk, Spread, ThreadsOk, CpusOk, LocksOk, Holds, Distinct, Removed, ChangedOnly;
      var z := cpus[c].zombies[0];
      CpuIs(cpus, wchans, newborn, place, booting, threads, c);
      ThreadIs(cpus, wchans, newborn, place, booting, threads, OnZombies(c), z);
      Gone(cpus, wchans, newborn, place, booting, threads, c, z);
      cpus := cpus[c := cpus[c].(zombies := cpus[c].zombies[1..])];
      threads, place := threads - {z}, place - {z};
    }

    // ----- wait channels

    /** Taking and releasing the lock of a wait channel. */
    method LockWchan(c: nat, w: nat)
      requires Inv() && c < |cpus| && (cpus[c].pc == Running || cpus[c].pc == Idle) && w in wchans
               && wchans[w].lock == Nobody
      modifies this`wchans
      ensures Inv() && Now() == Next(old(Now()), LocksWchan(c, w))
      ensures wchans == old(wchans)[w := Wchan(old(wchans)[w].queue, HeldBy(c))]
    {
      hide SchedOk, Spread, ThreadsOk, CpusOk, LocksOk, Holds, Distinct, Removed, ChangedOnly;
      CpuIs(cpus, wchans, newborn, place, booting, threads, c);
      SameQueue(cpus, wchans, newborn, place, booting, threads, c, w, wchans[w].(lock := HeldBy(c)));
      wchans := wchans[w := wchans[w].(lock := HeldBy(c))];
    }

    method UnlockWchan(c: nat, w: nat)
      requires Inv() && c < |cpus| && (cpus[c].pc == Running || cpus[c].pc == Idle) && w in wchans
               && wchans[w].lock == HeldBy(c)
      modifies this`wchans
      ensures Inv() && Now() == Next(old(Now()), UnlocksWchan(c, w))
      ensures wchans == old(wchans)[w := Wchan(old(wchans)[w].queue, Nobody)]
    {
      hide SchedOk, Spread, ThreadsOk, CpusOk, LocksOk, Holds, Distinct, Removed, ChangedOnly;
      CpuIs(cpus, wchans, newborn, place, booting, threads, c);
      SameQueue(cpus, wchans, newborn, place, booting, threads, c, w, wchans[w].(lock := Nobody));
      wchans := wchans[w := wchans[w].(lock := Nobody)];
    }

    /** wchan_wakeone, and each turn of the first loop of wchan_wakeall, take the first thread off the
        channel. */
    method TakeSleeper(c: nat, w: nat)
      requires Inv() && c < |cpus| && (cpus[c].pc == Running || cpus[c].pc == Idle)
      requires w in wchans && wchans[w].lock == HeldBy(c) && wchans[w].queue != []
      modifies this
      ensures Inv() && Now() == Next(old(Now()), TakesSleeper(c, w))
      ensures cpus == old(cpus)[c := old(cpus[c]).(woken := old(cpus[c].woken) + [old(wchans)[w].queue[0]])]
      ensures wchans == old(wchans)[w := Wchan(old(wchans)[w].queue[1..], HeldBy(c))]
    {
      hide SchedOk, Spread, ThreadsOk, CpusOk, LocksOk, Holds, Distinct, Removed, ChangedOnly, Next, Enabled, Flags,
           Underway, ThreadOk;
      CurrentKnown(cpus, wchans, newborn, place, booting, threads, c);
      NextTakesSleeper(Now(), c, w);
      var t := wchans[w].queue[0];
      var cpu', wc' := cpus[c].(woken := cpus[c].woken + [t]), wchans[w].(queue := wchans[w].queue[1..]);
      ToWoken(cpus, wchans, newborn, place, booting, threads, c, cpu', w, wc', t);
      cpus, wchans, place := cpus[c := cpu'], wchans[w := wc'], place[t := Woken(c)];
    }

    /** thread_make_runnable of a thread taken off a channel: only with the run queue lock of its cpu. */
    method MakeRunnable(c: nat)
      requires Inv() && c < |cpus| && (cpus[c].pc == Running || cpus[c].pc == Idle) && cpus[c].woken != []
      requires cpus[c].woken[0] in threads && threads[cpus[c].woken[0]].cpu < |cpus|
      requires !cpus[threads[cpus[c].woken[0]].cpu].locked
      modifies this
      ensures Inv() && Now() == Next(old(Now()), MakesRunnable(c))
      ensures var t := old(cpus[c].woken)[0]; var d := old(threads)[t].cpu;
              && |cpus| == |old(cpus)| && cpus[d].runqueue == old(cpus)[d].runqueue + [t]
              && cpus[c].woken == old(cpus[c].woken)[1..] && threads == old(threads)[t := Thread(S_READY, d)]
    {
      hide SchedOk, Spread, ThreadsOk, CpusOk, LocksOk, Holds, Distinct, Removed, ChangedOnly, Next, Enabled, Flags,
           Underway, ThreadOk;
      CurrentKnown(cpus, wchans, newborn, place, booting, threads, c);
      NextMakesRunnable(Now(), c);
      var t := cpus[c].woken[0];
      var d := threads[t].cpu;
      HeadRemoved(cpus[c].woken);
      var cpu' := cpus[c].(woken := cpus[c].woken[1..]);
      Enqueue(cpus, wchans, newborn, place, booting, threads, c, cpu', newborn, t, d, Woken(c));
      cpus := cpus[c := cpu'];
      cpus := cpus[d := cpus[d].(runqueue := cpus[d].runqueue + [t])];
      threads, place := threads[t := Thread(S_READY, d)], place[t := OnRunQueue(d)];
    }

    // ----- thread_fork

    /** A new thread, on the cpu of the thread that forks it. */
    method Create(c: nat, t: tid)
      requires Inv() && c < |cpus| && cpus[c].pc == Running && t !in threads
      modifies this
      ensures Inv() && Now() == Next(old(Now()), Creates(c, t))
      ensures threads == old(threads)[t := Thread(S_READY, c)] && newborn == old(newborn) + [t] && cpus == old(cpus)
    {
      hide SchedOk, Spread, ThreadsOk, CpusOk, LocksOk, Holds, Distinct, Removed, ChangedOnly;
      CpuIs(cpus, wchans, newborn, place, booting, threads, c);
      var d := threads[cpus[c].curthread].cpu;
      Born(cpus, wchans, newborn, place, booting, threads, t, d);
      threads, newborn, place := threads[t := Thread(S_READY, d)], newborn + [t], place[t := Newborn];
    }

    /** thread_make_runnable of a new thread; whoever forked it may by now be on another cpu. */
    method StartNewborn(c: nat, i: nat)
      requires Inv() && c < |cpus| && cpus[c].pc == Running && i < |newborn|
      requires newborn[i] in threads && threads[newborn[i]].cpu < |cpus| && !cpus[threads[newborn[i]].cpu].locked
      modifies this
      ensures Inv() && Now() == Next(old(Now()), Starts(c, i))
      ensures var t := old(newborn)[i]; var d := old(threads)[t].cpu;
              && |cpus| == |old(cpus)| && cpus == old(cpus)[d := old(cpus)[d].(runqueue := old(cpus)[d].runqueue + [t])]
              && threads == old(threads)[t := Thread(S_READY, d)]
              && newborn == old(newborn)[..i] + old(newborn)[i + 1..]
    {
      hide SchedOk, Spread, ThreadsOk, CpusOk, LocksOk, Holds, Distinct, Removed, ChangedOnly, Next, Enabled, Flags,
           Underway, ThreadOk;
      CurrentKnown(cpus, wchans, newborn, place, booting, threads, c);
      NextStarts(Now(), c, i);
      var t := newborn[i];
      var d := threads[t].cpu;
      NthRemoved(newborn, i);
      assert cpus[c := cpus[c]] == cpus;
      Enqueue(cpus, wchans, newborn, place, booting, threads, c, cpus[c], newborn[..i] + newborn[i + 1..], t, d,
              Newborn);
      cpus := cpus[d := cpus[d].(runqueue := cpus[d].runqueue + [t])];
      threads, place, newborn := threads[t := Thread(S_READY, d)], place[t := OnRunQueue(d)],
        newborn[..i] + newborn[i + 1..];
    }

    // ----- thread_consider_migration, one turn of each of its loops

    /** The last thread of the cpu's own run queue becomes the first victim. */
    method Evict(c: nat)
      requires Inv() && c < |cpus| && (cpus[c].pc == Running || cpus[c].pc == Idle) && cpus[c].runqueue != []
      modifies this
      ensures Inv() && Now() == Next(old(Now()), Evicts(c))
      ensures var q := old(cpus[c].runqueue);
              cpus == old(cpus)[c := old(cpus[c]).(runqueue := q[..|q| - 1],
                                                   victims := [q[|q| - 1]] + old(cpus[c].victims))]
    {
      hide SchedOk, Spread, ThreadsOk, CpusOk, LocksOk, Holds, Distinct, Removed, ChangedOnly, Next, Enabled, Flags,
           Underway, ThreadOk;
      CurrentKnown(cpus, wchans, newborn, place, booting, threads, c);
      NextEvicts(Now(), c);
      var q := cpus[c].runqueue;
      var t := q[|q| - 1];
      var cpu' := cpus[c].(runqueue := q[..|q| - 1], victims := [t] + cpus[c].victims);
      TailRemoved(q);
      HeadAdded(cpus[c].victims, t);
      WithinCpu(cpus, wchans, newborn, place, booting, threads, c, cpu', t, OnRunQueue(c), Victim(c));
      cpus, place := cpus[c := cpu'], place[t := Victim(c)];
    }

    /** The first victim goes to cpu d, unless it is the current thread (of an idle cpu), which goes to
        the end of the victims instead. */
    method Emigrate(c: nat, d: nat)
      requires Inv() && c < |cpus| && d < |cpus| && d != c && (cpus[c].pc == Running || cpus[c].pc == Idle)
      requires cpus[c].victims != [] && !cpus[d].locked
      modifies this
      ensures Inv() && Now() == Next(old(Now()), Emigrates(c, d))
      ensures |cpus| == |old(cpus)|
      ensures old(cpus[c].victims)[0] == old(cpus[c].curthread) ==>
                cpus[c].victims == old(cpus[c].victims)[1..] + [old(cpus[c].curthread)] && cpus[d] == old(cpus[d])
      ensures var t := old(cpus[c].victims)[0];
              t != old(cpus[c].curthread) ==>
                cpus[c].victims == old(cpus[c].victims)[1..] && cpus[d].runqueue == old(cpus[d].runqueue) + [t]
                && t in threads && threads[t] == Thread(S_READY, d)
    {
      hide SchedOk, Spread, ThreadsOk, CpusOk, LocksOk, Holds, Distinct, Removed, ChangedOnly, Next, Enabled, Flags,
           Underway, ThreadOk;
      CurrentKnown(cpus, wchans, newborn, place, booting, threads, c);
      NextEmigrates(Now(), c, d);
      var t := cpus[c].victims[0];
      if t == cpus[c].curthread {
        Rotated(cpus, wchans, newborn, place, booting, threads, c);
        cpus := cpus[c := cpus[c].(victims := cpus[c].victims[1..] + [t])];
        return;
      }
      HeadRemoved(cpus[c].victims);
      ThreadIs(cpus, wchans, newborn, place, booting, threads, Victim(c), t);
      var cpu' := cpus[c].(victims := cpus[c].victims[1..]);
      Enqueue(cpus, wchans, newborn, place, booting, threads, c, cpu', newborn, t, d, Victim(c));
      cpus := cpus[c := cpu'];
      cpus := cpus[d := cpus[d].(runqueue := cpus[d].runqueue + [t])];
      threads, place := threads[t := Thread(S_READY, d)], place[t := OnRunQueue(d)];
    }

    /** A victim left over goes back to the cpu's own run queue. */
    method Return(c: nat)
      requires Inv() && c < |cpus| && (cpus[c].pc == Running || cpus[c].pc == Idle) && cpus[c].victims != []
      modifies this
      ensures Inv() && Now() == Next(old(Now()), Returns(c))
      ensures cpus == old(cpus)[c := old(cpus[c]).(victims := old(cpus[c].victims)[1..],
                                                   runqueue := old(cpus[c].runqueue) + [old(cpus[c].victims)[0]])]
    {
      hide SchedOk, Spread, ThreadsOk, CpusOk, LocksOk, Holds, Distinct, Removed, ChangedOnly, Next, Enabled, Flags,
           Underway, ThreadOk;
      CurrentKnown(cpus, wchans, newborn, place, booting, threads, c);
      NextReturns(Now(), c);
      var t := cpus[c].victims[0];
      var cpu' := cpus[c].(victims := cpus[c].victims[1..], runqueue := cpus[c].runqueue + [t]);
      HeadRemoved(cpus[c].victims);
      TailAdded(cpus[c].runqueue, t);
      WithinCpu(cpus, wchans, newborn, place, booting, threads, c, cpu', t, Victim(c), OnRunQueue(c));
      cpus, place := cpus[c := cpu'], place[t := OnRunQueue(c)];
    }

    // ----- runs

    /** Whatever step a cpu can take, the machine takes, and keeps its invariant. */
    method Take(e: Step)
      requires Inv() && Enabled(cpus, threads, wchans, newborn, e)
      modifies this
      ensures Inv() && Now() == Next(old(Now()), e)
    {
      hide SchedOk, Next;
      match e
      case Enters(c, cause) => EnterSwitch(c, cause);
      case Places(c) => PlaceSelf(c);
      case DropsLock(c) => DropWchanLock(c);
      case SetsState(c) => SetState(c);
      case Picks(c) => Pick(c);
      case Unidles(c) => Unidle(c);
      case Finishes(c) => FinishSwitch(c);
      case Exorcises(c) => Exorcise(c);
      case LocksWchan(c, w) => LockWchan(c, w);
      case UnlocksWchan(c, w) => UnlockWchan(c, w);
      case TakesSleeper(c, w) => TakeSleeper(c, w);
      case MakesRunnable(c) => MakeRunnable(c);
      case Creates(c, t) => Create(c, t);
      case Starts(c, i) => StartNewborn(c, i);
      case Evicts(c) => Evict(c);
      case Emigrates(c, d) => Emigrate(c, d);
      case Returns(c) => Return(c);
    }

    /** Every interleaving of the cpus' steps: the invariant holds in every state on the way. */
    method Run(steps: seq<Step>)
      requires Inv()
      modifies this
      ensures Now() == Reached(old(Now()), steps)
      ensures forall i :: 0 <= i <= |steps| ==> StateOk(Reached(old(Now()), steps[..i]))
    {
      hide Next, Enabled, SchedOk;
      ghost var was := Now();
      for i := 0 to |steps|
        invariant Inv() && Now() == Reached(was, steps[..i])
        invariant forall j :: 0 <= j <= i ==> StateOk(Reached(was, steps[..j]))
      {
        OneMore(was, steps, i);
        if Enabled(cpus, threads, wchans, newborn, steps[i]) {
          Take(steps[i]);
        } else {
          Stays(Now(), steps[i]);
        }
      }
      assert steps[..|steps|] == steps;
    }
  }

  lemma CurrentKnown(cpus: seq<Cpu>, wchans: map<nat, Wchan>, newborn: seq<tid>, place: map<tid, Place>,
                     booting: set<tid>, threads: map<tid, Thread>, c: nat)
    requires SchedOk(cpus, wchans, newborn, place, booting, threads) && c < |cpus|
    ensures cpus[c].curthread in threads
  {
    hide *;
    CpuIs(cpus, wchans, newborn, place, booting, threads, c);
  }

  /** One cpu moves on in its code; all lists stay. */
  lemma SameListsStep(cpus: seq<Cpu>, wchans: map<nat, Wchan>, newborn: seq<tid>, place: map<tid, Place>,
                      booting: set<tid>, threads: map<tid, Thread>, c: nat, cpu': Cpu, th': Thread)
    requires SchedOk(cpus, wchans, newborn, place, booting, threads) && c < |cpus|
    requires CpuKeeps(cpus[c], cpu', c, Newborn, Newborn)
    requires cpus[c].curthread in place && cpus[c].curthread in threads && th'.cpu == c
    requires ThreadOk(cpus[c := cpu'], place, booting, th', cpus[c].curthread) && Underway(cpu', place, booting)
             && Flags(cpu')
    requires cpu'.pc.Queued? ==> cpu'.pc.wc in wchans && wchans[cpu'.pc.wc].lock == HeldBy(c)
    requires cpu'.pc.Locked? && cpu'.pc.cause.Sleep?
             ==> cpu'.pc.cause.wc in wchans && wchans[cpu'.pc.cause.wc].lock == HeldBy(c)
    ensures SchedOk(cpus[c := cpu'], wchans, newborn, place, booting, threads[cpus[c].curthread := th'])
    ensures th' == threads[cpus[c].curthread] ==> threads[cpus[c].curthread := th'] == threads
  {
    Unfold(cpus, wchans, newborn, place, booting, threads);
    var t := cpus[c].curthread;
    CpuIs(cpus, wchans, newborn, place, booting, threads, c);
    assert place[t := place[t]] == place && cpu'.curthread == t;
    NoOther(cpus[c], cpu', t);
    OneCpu(cpus, wchans, newborn, c, cpu', Newborn, Newborn);
    SameAll(cpus, wchans, newborn, cpus[c := cpu'], wchans, newborn);
    hide *;
    SpreadFrame(cpus, wchans, newborn, place, cpus[c := cpu'], wchans, newborn);
    ThreadsStep(cpus, place, booting, threads, c, cpu', t, th', place[t], booting);
    CpusStep(cpus, place, booting, threads, c, cpu', t, th', place[t], booting);
    LocksStep(cpus, wchans, c, cpu');
    Fold(cpus[c := cpu'], wchans, newborn, place, booting, threads[t := th']);
  }

  lemma NoOther(cpu: Cpu, cpu': Cpu, t: tid)
    requires cpu.curthread == t
    ensures forall u :: u != t ==> !Changing(cpu, u)
  {
  }

  lemma SameAll(cpus: seq<Cpu>, wchans: map<nat, Wchan>, newborn: seq<tid>,
                cpus': seq<Cpu>, wchans': map<nat, Wchan>, newborn': seq<tid>)
    requires ChangedOnly(cpus, wchans, newborn, cpus', wchans', newborn', Newborn, Newborn) && newborn' == newborn
    ensures forall p: Place :: At(cpus', wchans', newborn', p) == At(cpus, wchans, newborn, p)
  {
  }

  lemma AtCpu(cpus: seq<Cpu>, wchans: map<nat, Wchan>, newborn: seq<tid>, c: nat)
    requires c < |cpus|
    ensures At(cpus, wchans, newborn, OnCpu(c)) == if Busy(cpus[c].pc) then [cpus[c].curthread] else []
    ensures At(cpus, wchans, newborn, OnRunQueue(c)) == cpus[c].runqueue
    ensures At(cpus, wchans, newborn, OnZombies(c)) == cpus[c].zombies
    ensures At(cpus, wchans, newborn, Woken(c)) == cpus[c].woken
    ensures At(cpus, wchans, newborn, Victim(c)) == cpus[c].victims
    ensures At(cpus, wchans, newborn, Newborn) == newborn
    ensures cpus[c].pc.Locked? ==> Busy(cpus[c].pc)
    ensures cpus[c].pc.Picking? || cpus[c].pc.Placed? || cpus[c].pc.Queued? ==> !Busy(cpus[c].pc)
    ensures cpus[c].pc.Tail? ==> Busy(cpus[c].pc)
  {
  }

  lemma AtWchan(cpus: seq<Cpu>, wchans: map<nat, Wchan>, newborn: seq<tid>, w: nat)
    requires w in wchans
    ensures At(cpus, wchans, newborn, OnWchan(w)) == wchans[w].queue
  {
  }

  lemma OnlyOne(t: tid)
    ensures Removed([t], [], t)
  {
    HeadAdded([], t);
    assert [t] + [] == [t];
  }

  lemma Calm(cpu: Cpu)
    requires cpu.pc.Running? || cpu.pc.Idle? || cpu.pc.Picking? || cpu.pc.Reaping? || cpu.pc.Locked?
             || (!cpu.locked && Flags(cpu))
    ensures forall u :: !Changing(cpu, u)
  {
  }

  lemma LeaveOk(cpus: seq<Cpu>, wchans: map<nat, Wchan>, newborn: seq<tid>, place: map<tid, Place>,
                booting: set<tid>, threads: map<tid, Thread>, c: nat, cpu': Cpu,
                th': Thread, to: Place)
    requires c < |cpus| && cpus[c].curthread in place && cpus[c].curthread in threads && th'.cpu == c
    requires cpu'.pc == Placed(StateAt(to, false)) || (to.OnWchan? && cpu'.pc == Queued(to.w))
    requires !to.OnCpu? && (to.OnRunQueue? || to.OnZombies? || to.Victim? ==> to.c == c)
    requires cpu'.curthread == cpus[c].curthread && cpu'.locked && !cpu'.isidle
    ensures ThreadOk(cpus[c := cpu'], place[cpus[c].curthread := to], booting - {cpus[c].curthread}, th',
                     cpus[c].curthread)
    ensures Flags(cpu') && Underway(cpu', place[cpus[c].curthread := to], booting - {cpus[c].curthread})
  {
  }

  /** The current thread goes to a list of its cpu. */
  lemma LeaveCpu(cpus: seq<Cpu>, wchans: map<nat, Wchan>, newborn: seq<tid>, place: map<tid, Place>,
                 booting: set<tid>, threads: map<tid, Thread>, c: nat, cpu': Cpu,
                 th': Thread, to: Place)
    requires SchedOk(cpus, wchans, newborn, place, booting, threads) && c < |cpus|
    requires cpus[c].pc.Locked? && (to == OnRunQueue(c) || to == OnZombies(c)) && cpus[c].curthread in threads
    requires cpu'.pc == Placed(StateAt(to, false)) && cpu'.curthread == cpus[c].curthread && cpu'.locked && !cpu'.isidle
    requires CpuKeeps(cpus[c], cpu', c, OnCpu(c), to) && th'.cpu == c
    requires Removed(At(cpus[c := cpu'], wchans, newborn, to), At(cpus, wchans, newborn, to), cpus[c].curthread)
    ensures SchedOk(cpus[c := cpu'], wchans, newborn, place[cpus[c].curthread := to], booting - {cpus[c].curthread},
                    threads[cpus[c].curthread := th'])
  {
    hide *;
    Unfold(cpus, wchans, newborn, place, booting, threads);
    CpuIs(cpus, wchans, newborn, place, booting, threads, c);
    AtCpu(cpus, wchans, newborn, c);
    AtCpu(cpus[c := cpu'], wchans, newborn, c);
    var cur := cpus[c].curthread;
    OneCpu(cpus, wchans, newborn, c, cpu', OnCpu(c), to);
    OnlyOne(cur);
    Moved(cpus, wchans, newborn, place, cpus[c := cpu'], wchans, newborn, cur, to);
    Calm(cpus[c]);
    LeaveOk(cpus, wchans, newborn, place, booting, threads, c, cpu', th', to);
    ThreadsStep(cpus, place, booting, threads, c, cpu', cur, th', to, booting - {cur});
    CpusStep(cpus, place, booting, threads, c, cpu', cur, th', to, booting - {cur});
    LocksStep(cpus, wchans, c, cpu');
    Fold(cpus[c := cpu'], wchans, newborn, place[cur := to], booting - {cur}, threads[cur := th']);
  }

  lemma BothChange(cpus: seq<Cpu>, wchans: map<nat, Wchan>, newborn: seq<tid>, c: nat, cpu': Cpu, w: nat, wc': Wchan)
    requires c < |cpus| && w in wchans && CpuKeeps(cpus[c], cpu', c, OnCpu(c), OnWchan(w))
    ensures ChangedOnly(cpus, wchans, newborn, cpus[c := cpu'], wchans[w := wc'], newborn, OnCpu(c), OnWchan(w))
  {
    hide ChangedOnly;
    OneCpu(cpus, wchans, newborn, c, cpu', OnCpu(c), OnWchan(w));
    OneWchan(cpus[c := cpu'], wchans, newborn, w, wc', OnCpu(c), OnWchan(w));
    ThenOnly(cpus, wchans, newborn, cpus[c := cpu'], wchans, newborn, cpus[c := cpu'], wchans[w := wc'], newborn,
             OnCpu(c), OnWchan(w));
  }

  /** The current thread goes to a wait channel. */
  lemma LeaveToWchan(cpus: seq<Cpu>, wchans: map<nat, Wchan>, newborn: seq<tid>, place: map<tid, Place>,
                     booting: set<tid>, threads: map<tid, Thread>, c: nat, cpu': Cpu,
                     w: nat, wc': Wchan)
    requires SchedOk(cpus, wchans, newborn, place, booting, threads) && c < |cpus|
    requires cpus[c].pc == Locked(Sleep(w)) && w in wchans && wc'.lock == wchans[w].lock && cpus[c].curthread in threads
    requires cpu' == cpus[c].(pc := Queued(w)) && Removed(wc'.queue, wchans[w].queue, cpus[c].curthread)
    requires cpu'.locked && !cpu'.isidle && CpuKeeps(cpus[c], cpu', c, OnCpu(c), OnWchan(w))
    ensures SchedOk(cpus[c := cpu'], wchans[w := wc'], newborn, place[cpus[c].curthread := OnWchan(w)],
                    booting - {cpus[c].curthread}, threads)
  {
    hide *;
    Unfold(cpus, wchans, newborn, place, booting, threads);
    CpuIs(cpus, wchans, newborn, place, booting, threads, c);
    AtCpu(cpus, wchans, newborn, c);
    AtCpu(cpus[c := cpu'], wchans[w := wc'], newborn, c);
    AtWchan(cpus, wchans, newborn, w);
    AtWchan(cpus[c := cpu'], wchans[w := wc'], newborn, w);
    var cur := cpus[c].curthread;
    BothChange(cpus, wchans, newborn, c, cpu', w, wc');
    OnlyOne(cur);
    Moved(cpus, wchans, newborn, place, cpus[c := cpu'], wchans[w := wc'], newborn, cur, OnWchan(w));
    Calm(cpus[c]);
    LeaveOk(cpus, wchans, newborn, place, booting, threads, c, cpu', threads[cur], OnWchan(w));
    ThreadsStep(cpus, place, booting, threads, c, cpu', cur, threads[cur], OnWchan(w), booting - {cur});
    CpusStep(cpus, place, booting, threads, c, cpu', cur, threads[cur], OnWchan(w), booting - {cur});
    LocksStep(cpus, wchans, c, cpu');
    WchanStep(cpus[c := cpu'], wchans, c, w, wc');
    assert threads[cur := threads[cur]] == threads;
    Fold(cpus[c := cpu'], wchans[w := wc'], newborn, place[cur := OnWchan(w)], booting - {cur}, threads);
  }

  lemma EnterOk(cpus: seq<Cpu>, wchans: map<nat, Wchan>, newborn: seq<tid>, place: map<tid, Place>,
                booting: set<tid>, threads: map<tid, Thread>, c: nat, cpu': Cpu, t: tid)
    requires c < |cpus| && cpus[c].runqueue != [] && t in place && t in threads && place[t] == OnRunQueue(c)
    requires ThreadOk(cpus, place, booting, threads[t], t)
    requires cpu' == cpus[c].(runqueue := cpus[c].runqueue[1..], isidle := false, curthread := t, pc := Tail)
             && cpu'.locked
    ensures ThreadOk(cpus[c := cpu'], place[t := OnCpu(c)], booting, threads[t], t) && threads[t].cpu == c
    ensures Flags(cpu') && Underway(cpu', place[t := OnCpu(c)], booting)
            && CpuKeeps(cpus[c], cpu', c, OnRunQueue(c), OnCpu(c))
  {
  }

  /** The first thread of the run queue becomes the current one. */
  lemma EnterCpu(cpus: seq<Cpu>, wchans: map<nat, Wchan>, newborn: seq<tid>, place: map<tid, Place>,
                 booting: set<tid>, threads: map<tid, Thread>, c: nat, cpu': Cpu, t: tid)
    requires SchedOk(cpus, wchans, newborn, place, booting, threads) && c < |cpus|
    requires cpus[c].pc == Picking && cpus[c].locked && cpus[c].runqueue != [] && t == cpus[c].runqueue[0]
    requires cpu' == cpus[c].(runqueue := cpus[c].runqueue[1..], isidle := false, curthread := t, pc := Tail)
    ensures SchedOk(cpus[c := cpu'], wchans, newborn, place[t := OnCpu(c)], booting, threads)
    ensures forall d :: 0 <= d < |cpus| && d != c ==> cpus[d].curthread != t
  {
    hide *;
    Unfold(cpus, wchans, newborn, place, booting, threads);
    CpuIs(cpus, wchans, newborn, place, booting, threads, c);
    AtCpu(cpus, wchans, newborn, c);
    AtCpu(cpus[c := cpu'], wchans, newborn, c);
    ThreadIs(cpus, wchans, newborn, place, booting, threads, OnRunQueue(c), t);
    EnterOk(cpus, wchans, newborn, place, booting, threads, c, cpu', t);
    OneCpu(cpus, wchans, newborn, c, cpu', OnRunQueue(c), OnCpu(c));
    HeadRemoved(cpus[c].runqueue);
    OnlyOne(t);
    Moved(cpus, wchans, newborn, place, cpus[c := cpu'], wchans, newborn, t, OnCpu(c));
    Calm(cpus[c]);
    ThreadsStep(cpus, place, booting, threads, c, cpu', t, threads[t], OnCpu(c), booting);
    CpusStep(cpus, place, booting, threads, c, cpu', t, threads[t], OnCpu(c), booting);
    LocksStep(cpus, wchans, c, cpu');
    assert threads[t := threads[t]] == threads;
    Fold(cpus[c := cpu'], wchans, newborn, place[t := OnCpu(c)], booting, threads);
  }

  /** A zombie is destroyed. */
  lemma Gone(cpus: seq<Cpu>, wchans: map<nat, Wchan>, newborn: seq<tid>, place: map<tid, Place>,
             booting: set<tid>, threads: map<tid, Thread>, c: nat, z: tid)
    requires SchedOk(cpus, wchans, newborn, place, booting, threads) && c < |cpus|
    requires cpus[c].pc == Reaping && cpus[c].zombies != [] && z == cpus[c].zombies[0]
    ensures SchedOk(cpus[c := cpus[c].(zombies := cpus[c].zombies[1..])], wchans, newborn, place - {z}, booting,
                    threads - {z})
    ensures z in threads && threads[z].state == S_ZOMBIE && z !in cpus[c].zombies[1..]
    ensures forall d :: 0 <= d < |cpus| ==> cpus[d].curthread != z
  {
    var cpu' := cpus[c].(zombies := cpus[c].zombies[1..]);
    var cpus' := cpus[c := cpu'];
    hide *;
    Unfold(cpus, wchans, newborn, place, booting, threads);
    CpuIs(cpus, wchans, newborn, place, booting, threads, c);
    AtCpu(cpus, wchans, newborn, c);
    AtCpu(cpus', wchans, newborn, c);
    ThreadIs(cpus, wchans, newborn, place, booting, threads, OnZombies(c), z);
    ZombieState(cpus, wchans, newborn, place, booting, threads, c, z);
    OneZombieLess(cpus, wchans, newborn, c, cpu');
    HeadRemoved(cpus[c].zombies);
    Vanished(cpus, wchans, newborn, place, cpus', z);
    LocksStep(cpus, wchans, c, cpu');
    GoneThreads(cpus, place, booting, threads, c, cpu', z);
    Fold(cpus', wchans, newborn, place - {z}, booting, threads - {z});
  }

  lemma ZombieState(cpus: seq<Cpu>, wchans: map<nat, Wchan>, newborn: seq<tid>, place: map<tid, Place>,
                    booting: set<tid>, threads: map<tid, Thread>, c: nat, z: tid)
    requires SchedOk(cpus, wchans, newborn, place, booting, threads) && c < |cpus|
    requires cpus[c].pc == Reaping && z in place && z in threads && place[z] == OnZombies(c)
    requires ThreadOk(cpus, place, booting, threads[z], z)
    ensures threads[z].state == S_ZOMBIE && threads[z].cpu == c && z != cpus[c].curthread
    ensures z !in booting
    ensures forall d :: 0 <= d < |cpus| ==> cpus[d].curthread != z
  {
    hide Spread, LocksOk, ThreadsOk;
    CpuIs(cpus, wchans, newborn, place, booting, threads, c);
  }

  lemma OneZombieLess(cpus: seq<Cpu>, wchans: map<nat, Wchan>, newborn: seq<tid>, c: nat, cpu': Cpu)
    requires c < |cpus| && cpu' == cpus[c].(zombies := cpu'.zombies)
    ensures ChangedOnly(cpus, wchans, newborn, cpus[c := cpu'], wchans, newborn, OnZombies(c), OnZombies(c))
    ensures Flags(cpus[c]) ==> Flags(cpu')
  {
  }

  lemma GoneThreads(cpus: seq<Cpu>, place: map<tid, Place>, booting: set<tid>, threads: map<tid, Thread>,
                    c: nat, cpu': Cpu, z: tid)
    requires ThreadsOk(cpus, place, booting, threads) && CpusOk(cpus, place, booting, threads) && c < |cpus|
    requires cpu' == cpus[c].(zombies := cpu'.zombies) && z !in booting
    requires forall d :: 0 <= d < |cpus| ==> cpus[d].curthread != z
    ensures ThreadsOk(cpus[c := cpu'], place - {z}, booting, threads - {z})
    ensures CpusOk(cpus[c := cpu'], place - {z}, booting, threads - {z})
  {
    hide StateAt;
    forall u | u in place && u != z
      ensures ThreadOk(cpus[c := cpu'], place - {z}, booting, threads[u], u)
    {
      assert ThreadOk(cpus, place, booting, threads[u], u);
    }
    var cpus' := cpus[c := cpu'];
    forall d | 0 <= d < |cpus'|
      ensures Underway(cpus'[d], place - {z}, booting)
    {
      assert Underway(cpus[d], place, booting);
    }
    hide Underway, ThreadOk;
  }

  lemma Vanished(cpus: seq<Cpu>, wchans: map<nat, Wchan>, newborn: seq<tid>, place: map<tid, Place>, cpus': seq<Cpu>,
                 t: tid)
    requires Spread(cpus, wchans, newborn, place) && t in place
    requires ChangedOnly(cpus, wchans, newborn, cpus', wchans, newborn, place[t], place[t])
    requires Removed(At(cpus, wchans, newborn, place[t]), At(cpus', wchans, newborn, place[t]), t)
    ensures Spread(cpus', wchans, newborn, place - {t})
    ensures t !in At(cpus', wchans, newborn, place[t])
  {
    hide At, Removed, Distinct;
    assert forall p: Place :: p != place[t] ==> At(cpus', wchans, newborn, p) == At(cpus, wchans, newborn, p);
    forall p: Place
      ensures Holds(At(cpus', wchans, newborn, p), p, place - {t})
    {
      assert Holds(At(cpus, wchans, newborn, p), p, place);
      if p == place[t] {
        RemovedHolds(At(cpus, wchans, newborn, p), At(cpus', wchans, newborn, p), t);
      }
    }
    assert Holds(At(cpus', wchans, newborn, place[t]), place[t], place - {t});
  }

  /** The lock of a wait channel changes hands. */
  lemma SameQueue(cpus: seq<Cpu>, wchans: map<nat, Wchan>, newborn: seq<tid>, place: map<tid, Place>,
                  booting: set<tid>, threads: map<tid, Thread>, c: nat, w: nat, wc': Wchan)
    requires SchedOk(cpus, wchans, newborn, place, booting, threads) && c < |cpus|
    requires w in wchans && wc'.queue == wchans[w].queue && (wchans[w].lock == Nobody || wchans[w].lock == HeldBy(c))
    requires !cpus[c].pc.Queued? && !cpus[c].pc.Locked?
    ensures SchedOk(cpus, wchans[w := wc'], newborn, place, booting, threads)
  {
    Unfold(cpus, wchans, newborn, place, booting, threads);
    hide SchedOk, Spread, ThreadsOk, CpusOk, LocksOk, Holds, Distinct, Removed, ChangedOnly;
    OneWchan(cpus, wchans, newborn, w, wc', Newborn, Newborn);
    SameAll(cpus, wchans, newborn, cpus, wchans[w := wc'], newborn);
    SpreadFrame(cpus, wchans, newborn, place, cpus, wchans[w := wc'], newborn);
    WchanStep(cpus, wchans, c, w, wc');
    Fold(cpus, wchans[w := wc'], newborn, place, booting, threads);
  }

  /** A sleeper is taken off its channel. */
  lemma ToWoken(cpus: seq<Cpu>, wchans: map<nat, Wchan>, newborn: seq<tid>, place: map<tid, Place>,
                booting: set<tid>, threads: map<tid, Thread>, c: nat, cpu': Cpu,
                w: nat, wc': Wchan, t: tid)
    requires SchedOk(cpus, wchans, newborn, place, booting, threads) && c < |cpus|
    requires (cpus[c].pc == Running || cpus[c].pc == Idle) && w in wchans && wchans[w].lock == HeldBy(c)
    requires wchans[w].queue != [] && t == wchans[w].queue[0] && wc' == wchans[w].(queue := wchans[w].queue[1..])
    requires cpu' == cpus[c].(woken := cpus[c].woken + [t]) && CpuKeeps(cpus[c], cpu', c, OnWchan(w), Woken(c))
    ensures SchedOk(cpus[c := cpu'], wchans[w := wc'], newborn, place[t := Woken(c)], booting, threads)
  {
    hide *;
    Unfold(cpus, wchans, newborn, place, booting, threads);
    CpuIs(cpus, wchans, newborn, place, booting, threads, c);
    AtCpu(cpus, wchans, newborn, c);
    AtCpu(cpus[c := cpu'], wchans[w := wc'], newborn, c);
    AtWchan(cpus, wchans, newborn, w);
    AtWchan(cpus[c := cpu'], wchans[w := wc'], newborn, w);
    ThreadIs(cpus, wchans, newborn, place, booting, threads, OnWchan(w), t);
    OneCpu(cpus, wchans, newborn, c, cpu', OnWchan(w), Woken(c));
    OneWchan(cpus[c := cpu'], wchans, newborn, w, wc', OnWchan(w), Woken(c));
    ThenOnly(cpus, wchans, newborn, cpus[c := cpu'], wchans, newborn, cpus[c := cpu'], wchans[w := wc'], newborn,
             OnWchan(w), Woken(c));
    HeadRemoved(wchans[w].queue);
    TailAdded(cpus[c].woken, t);
    Moved(cpus, wchans, newborn, place, cpus[c := cpu'], wchans[w := wc'], newborn, t, Woken(c));
    Calm(cpus[c]);
    SleeperOk(cpus, wchans, newborn, place, booting, threads, c, cpu', w, t);
    ThreadsStep(cpus, place, booting, threads, c, cpu', t, threads[t], Woken(c), booting);
    CpusStep(cpus, place, booting, threads, c, cpu', t, threads[t], Woken(c), booting);
    LocksStep(cpus, wchans, c, cpu');
    WchanStep(cpus[c := cpu'], wchans, c, w, wc');
    assert threads[t := threads[t]] == threads;
    Fold(cpus[c := cpu'], wchans[w := wc'], newborn, place[t := Woken(c)], booting, threads);
  }

  /** A sleeper that can be taken off its channel is past releasing the channel's lock. */
  lemma SleeperOk(cpus: seq<Cpu>, wchans: map<nat, Wchan>, newborn: seq<tid>, place: map<tid, Place>,
                  booting: set<tid>, threads: map<tid, Thread>, c: nat, cpu': Cpu,
                  w: nat, t: tid)
    requires SchedOk(cpus, wchans, newborn, place, booting, threads) && c < |cpus|
    requires (cpus[c].pc == Running || cpus[c].pc == Idle) && w in wchans && wchans[w].lock == HeldBy(c)
             && t in wchans[w].queue
    requires cpu' == cpus[c].(woken := cpus[c].woken + [t]) && t in place && t in threads
    ensures ThreadOk(cpus[c := cpu'], place[t := Woken(c)], booting, threads[t], t)
    ensures Flags(cpu') && Underway(cpu', place[t := Woken(c)], booting)
    ensures forall d :: 0 <= d < |cpus| && d != c && cpus[d].curthread == t ==>
              threads[t].cpu == d && Underway(cpus[d], place[t := Woken(c)], booting)
  {
    hide Spread, Distinct, Removed, ChangedOnly;
    assert t in At(cpus, wchans, newborn, OnWchan(w));
    ThreadIs(cpus, wchans, newborn, place, booting, threads, OnWchan(w), t);
    CpuIs(cpus, wchans, newborn, place, booting, threads, c);
    forall d | 0 <= d < |cpus| && d != c && cpus[d].curthread == t
      ensures Underway(cpus[d], place[t := Woken(c)], booting)
    {
      CpuIs(cpus, wchans, newborn, place, booting, threads, d);
    }
  }

  lemma EnqueueOk(cpus: seq<Cpu>, wchans: map<nat, Wchan>, newborn: seq<tid>, place: map<tid, Place>,
                  booting: set<tid>, threads: map<tid, Thread>, c: nat, cpu': Cpu,
                  t: tid, d: nat, from: Place)
    requires SchedOk(cpus, wchans, newborn, place, booting, threads) && c < |cpus|
    requires d < |cpus| && !cpus[d].locked && (cpus[c].pc == Running || cpus[c].pc == Idle)
    requires t in threads && t in place && place[t] == from && !from.OnCpu?
    requires ThreadOk(cpus, place, booting, threads[t], t)
    requires forall e :: 0 <= e < |cpus| && cpus[e].curthread == t ==> threads[t].cpu == e
    requires cpu' == cpus[c].(woken := cpu'.woken) || cpu' == cpus[c].(victims := cpu'.victims)
    requires d == threads[t].cpu || (from == Victim(c) && t != cpus[c].curthread)
    ensures var cpus1 := cpus[c := cpu']; var d' := cpus1[d].(runqueue := cpus1[d].runqueue + [t]);
            && Flags(cpu') && Underway(cpu', place, booting) && ThreadOk(cpus1, place, booting, threads[t], t)
            && ThreadOk(cpus1[d := d'], place[t := OnRunQueue(d)], booting, Thread(S_READY, d), t)
            && Flags(d') && Underway(d', place[t := OnRunQueue(d)], booting)
            && (forall u :: !Changing(cpus1[d], u))
    ensures forall e :: 0 <= e < |cpus| && cpus[e].curthread == t ==> e == d
  {
    hide Spread, ThreadsOk, CpusOk, LocksOk;
    CpuIs(cpus, wchans, newborn, place, booting, threads, c);
    CpuIs(cpus, wchans, newborn, place, booting, threads, d);
  }

  /** A thread in transit goes to the end of a run queue whose lock is free. */
  lemma Enqueue(cpus: seq<Cpu>, wchans: map<nat, Wchan>, newborn: seq<tid>, place: map<tid, Place>,
                booting: set<tid>, threads: map<tid, Thread>, c: nat, cpu': Cpu,
                newborn': seq<tid>, t: tid, d: nat, from: Place)
    requires SchedOk(cpus, wchans, newborn, place, booting, threads) && c < |cpus|
    requires d < |cpus| && !cpus[d].locked && (cpus[c].pc == Running || cpus[c].pc == Idle)
    requires t in At(cpus, wchans, newborn, from) && (from == Woken(c) || from == Victim(c) || from == Newborn)
    requires Removed(At(cpus, wchans, newborn, from), At(cpus[c := cpu'], wchans, newborn', from), t)
    requires cpu' == cpus[c].(woken := cpu'.woken) || cpu' == cpus[c].(victims := cpu'.victims)
    requires CpuKeeps(cpus[c], cpu', c, from, OnRunQueue(d)) && (from == Newborn || newborn' == newborn)
    requires t in threads && (d == threads[t].cpu || (from == Victim(c) && t != cpus[c].curthread))
    ensures var cpus1 := cpus[c := cpu'];
            SchedOk(cpus1[d := cpus1[d].(runqueue := cpus1[d].runqueue + [t])], wchans, newborn',
                    place[t := OnRunQueue(d)],
                    booting, threads[t := Thread(S_READY, d)])
  {
    hide *;
    Unfold(cpus, wchans, newborn, place, booting, threads);
    CpuIs(cpus, wchans, newborn, place, booting, threads, c);
    CpuIs(cpus, wchans, newborn, place, booting, threads, d);
    ThreadIs(cpus, wchans, newborn, place, booting, threads, from, t);
    EnqueueOk(cpus, wchans, newborn, place, booting, threads, c, cpu', t, d, from);
    var cpus1 := cpus[c := cpu'];
    var d' := cpus1[d].(runqueue := cpus1[d].runqueue + [t]);
    var cpus2, to := cpus1[d := d'], OnRunQueue(d);
    TailAdded(cpus[d].runqueue, t);
    AtCpu(cpus, wchans, newborn, d);
    AtCpu(cpus2, wchans, newborn', d);
    EnqueueOnly(cpus, wchans, newborn, c, cpu', newborn', d, d', from);
    Moved(cpus, wchans, newborn, place, cpus2, wchans, newborn', t, to);
    assert place[t := from] == place && threads[t := threads[t]] == threads;
    Calm(cpus[c]);
    ThreadsStep(cpus, place, booting, threads, c, cpu', t, threads[t], from, booting);
    CpusStep(cpus, place, booting, threads, c, cpu', t, threads[t], from, booting);
    ThreadsStep(cpus1, place, booting, threads, d, d', t, Thread(S_READY, d), to, booting);
    CpusStep(cpus1, place, booting, threads, d, d', t, Thread(S_READY, d), to, booting);
    LocksStep(cpus, wchans, c, cpu');
    LocksStep(cpus1, wchans, d, d');
    Fold(cpus2, wchans, newborn', place[t := to], booting, threads[t := Thread(S_READY, d)]);
  }

  lemma EnqueueOnly(cpus: seq<Cpu>, wchans: map<nat, Wchan>, newborn: seq<tid>, c: nat, cpu': Cpu, newborn': seq<tid>,
                    d: nat, d': Cpu, from: Place)
    requires c < |cpus| && d < |cpus| && CpuKeeps(cpus[c], cpu', c, from, OnRunQueue(d))
             && (from == Newborn || newborn' == newborn)
    requires d' == cpus[c := cpu'][d].(runqueue := d'.runqueue)
    ensures ChangedOnly(cpus, wchans, newborn, cpus[c := cpu'][d := d'], wchans, newborn', from, OnRunQueue(d))
    ensures At(cpus[c := cpu'][d := d'], wchans, newborn', from) == At(cpus[c := cpu'], wchans, newborn', from)
            || from == OnRunQueue(d)
  {
    hide ChangedOnly;
    var cpus1, to := cpus[c := cpu'], OnRunQueue(d);
    OneCpu(cpus, wchans, newborn, c, cpu', from, to);
    if from == Newborn {
      OneNewborn(cpus1, wchans, newborn, newborn', from, to);
      ThenOnly(cpus, wchans, newborn, cpus1, wchans, newborn, cpus1, wchans, newborn', from, to);
    }
    OneCpu(cpus1, wchans, newborn', d, d', from, to);
    ThenOnly(cpus, wchans, newborn, cpus1, wchans, newborn', cpus1[d := d'], wchans, newborn', from, to);
  }

  lemma WithinOk(cpus: seq<Cpu>, wchans: map<nat, Wchan>, newborn: seq<tid>, place: map<tid, Place>,
                 booting: set<tid>, threads: map<tid, Thread>, c: nat, cpu': Cpu,
                 t: tid, to: Place)
    requires c < |cpus| && (cpus[c].pc == Running || cpus[c].pc == Idle) && Flags(cpus[c])
             && Underway(cpus[c], place, booting)
    requires t in place && t in threads && (place[t] == OnRunQueue(c) || place[t] == Victim(c))
             && (to == OnRunQueue(c) || to == Victim(c))
    requires ThreadOk(cpus, place, booting, threads[t], t)
             && cpu' == cpus[c].(runqueue := cpu'.runqueue, victims := cpu'.victims)
    ensures ThreadOk(cpus[c := cpu'], place[t := to], booting, threads[t], t) && threads[t].cpu == c
    ensures Flags(cpu') && Underway(cpu', place[t := to], booting)
  {
  }

  /** A thread moves between a cpu's run queue and its victims. */
  lemma WithinCpu(cpus: seq<Cpu>, wchans: map<nat, Wchan>, newborn: seq<tid>, place: map<tid, Place>,
                  booting: set<tid>, threads: map<tid, Thread>, c: nat, cpu': Cpu,
                  t: tid, from: Place, to: Place)
    requires SchedOk(cpus, wchans, newborn, place, booting, threads) && c < |cpus|
    requires (cpus[c].pc == Running || cpus[c].pc == Idle) && t in At(cpus, wchans, newborn, from)
    requires (from == OnRunQueue(c) && to == Victim(c)) || (from == Victim(c) && to == OnRunQueue(c))
    requires cpu' == cpus[c].(runqueue := cpu'.runqueue, victims := cpu'.victims)
             && CpuKeeps(cpus[c], cpu', c, from, to)
    requires Removed(At(cpus, wchans, newborn, from), At(cpus[c := cpu'], wchans, newborn, from), t)
    requires Removed(At(cpus[c := cpu'], wchans, newborn, to), At(cpus, wchans, newborn, to), t)
    ensures SchedOk(cpus[c := cpu'], wchans, newborn, place[t := to], booting, threads)
  {
    hide *;
    Unfold(cpus, wchans, newborn, place, booting, threads);
    CpuIs(cpus, wchans, newborn, place, booting, threads, c);
    ThreadIs(cpus, wchans, newborn, place, booting, threads, from, t);
    WithinOk(cpus, wchans, newborn, place, booting, threads, c, cpu', t, to);
    OneCpu(cpus, wchans, newborn, c, cpu', from, to);
    Moved(cpus, wchans, newborn, place, cpus[c := cpu'], wchans, newborn, t, to);
    Calm(cpus[c]);
    ThreadsStep(cpus, place, booting, threads, c, cpu', t, threads[t], to, booting);
    CpusStep(cpus, place, booting, threads, c, cpu', t, threads[t], to, booting);
    LocksStep(cpus, wchans, c, cpu');
    assert threads[t := threads[t]] == threads;
    Fold(cpus[c := cpu'], wchans, newborn, place[t := to], booting, threads);
  }

  /** The first victim goes to the end. */
  lemma Rotated(cpus: seq<Cpu>, wchans: map<nat, Wchan>, newborn: seq<tid>, place: map<tid, Place>,
                booting: set<tid>, threads: map<tid, Thread>, c: nat)
    requires SchedOk(cpus, wchans, newborn, place, booting, threads) && c < |cpus|
    requires cpus[c].pc == Running || cpus[c].pc == Idle
    requires cpus[c].victims != []
    ensures SchedOk(cpus[c := cpus[c].(victims := cpus[c].victims[1..] + [cpus[c].victims[0]])], wchans, newborn, place,
                    booting, threads)
  {
    var v := cpus[c].victims;
    var cpu' := cpus[c].(victims := v[1..] + [v[0]]);
    var t := cpus[c].curthread;
    Unfold(cpus, wchans, newborn, place, booting, threads);
    hide SchedOk, Spread, ThreadsOk, CpusOk, LocksOk, Removed, ChangedOnly;
    CpuIs(cpus, wchans, newborn, place, booting, threads, c);
    OneCpu(cpus, wchans, newborn, c, cpu', Victim(c), Victim(c));
    Turned(cpus, wchans, newborn, place, cpus[c := cpu'], Victim(c));
    assert forall u :: !Changing(cpus[c], u);
    assert place[t := place[t]] == place && threads[t := threads[t]] == threads;
    ThreadsStep(cpus, place, booting, threads, c, cpu', t, threads[t], place[t], booting);
    CpusStep(cpus, place, booting, threads, c, cpu', t, threads[t], place[t], booting);
    LocksStep(cpus, wchans, c, cpu');
    Fold(cpus[c := cpu'], wchans, newborn, place, booting, threads);
  }

  lemma Turned(cpus: seq<Cpu>, wchans: map<nat, Wchan>, newborn: seq<tid>, place: map<tid, Place>, cpus': seq<Cpu>,
               p: Place)
    requires Spread(cpus, wchans, newborn, place) && ChangedOnly(cpus, wchans, newborn, cpus', wchans, newborn, p, p)
    requires At(cpus, wchans, newborn, p) != []
    requires At(cpus', wchans, newborn, p) == At(cpus, wchans, newborn, p)[1..] + [At(cpus, wchans, newborn, p)[0]]
    ensures Spread(cpus', wchans, newborn, place)
  {
    hide At, Distinct;
    forall q: Place
      ensures Holds(At(cpus', wchans, newborn, q), q, place)
    {
      assert Holds(At(cpus, wchans, newborn, q), q, place);
      if q == p {
        TurnedList(At(cpus, wchans, newborn, p));
      }
    }
  }

  lemma TurnedList(s: seq<tid>)
    requires Distinct(s) && s != []
    ensures Distinct(s[1..] + [s[0]]) && forall x :: x in s[1..] + [s[0]] <==> x in s
  {
    assert forall x :: x in s <==> x == s[0] || x in s[1..];
  }

  /** A new thread. */
  lemma Born(cpus: seq<Cpu>, wchans: map<nat, Wchan>, newborn: seq<tid>, place: map<tid, Place>,
             booting: set<tid>, threads: map<tid, Thread>, t: tid, d: nat)
    requires SchedOk(cpus, wchans, newborn, place, booting, threads) && t !in threads && d < |cpus|
    ensures SchedOk(cpus, wchans, newborn + [t], place[t := Newborn], booting, threads[t := Thread(S_READY, d)])
  {
    hide *;
    Unfold(cpus, wchans, newborn, place, booting, threads);
    BornSpread(cpus, wchans, newborn, place, t);
    BornThreads(cpus, place, booting, threads, t, d);
    Fold(cpus, wchans, newborn + [t], place[t := Newborn], booting, threads[t := Thread(S_READY, d)]);
  }

  lemma BornSpread(cpus: seq<Cpu>, wchans: map<nat, Wchan>, newborn: seq<tid>, place: map<tid, Place>, t: tid)
    requires Spread(cpus, wchans, newborn, place) && t !in place
    ensures Spread(cpus, wchans, newborn + [t], place[t := Newborn])
  {
    hide Removed, Distinct;
    forall p: Place
      ensures Holds(At(cpus, wchans, newborn + [t], p), p, place[t := Newborn])
    {
      assert Holds(At(cpus, wchans, newborn, p), p, place);
      if p == Newborn {
        TailAdded(newborn, t);
        AddedHolds(newborn + [t], newborn, t);
      }
    }
  }

  lemma BornThreads(cpus: seq<Cpu>, place: map<tid, Place>, booting: set<tid>, threads: map<tid, Thread>, t: tid,
                    d: nat)
    requires ThreadsOk(cpus, place, booting, threads) && CpusOk(cpus, place, booting, threads) && t !in threads
             && d < |cpus|
    ensures ThreadsOk(cpus, place[t := Newborn], booting, threads[t := Thread(S_READY, d)])
    ensures CpusOk(cpus, place[t := Newborn], booting, threads[t := Thread(S_READY, d)])
  {
    forall u | u in place
      ensures ThreadOk(cpus, place[t := Newborn], booting, threads[u], u)
    {
      assert ThreadOk(cpus, place, booting, threads[u], u);
    }
    forall c | 0 <= c < |cpus|
      ensures Underway(cpus[c], place[t := Newborn], booting)
    {
      assert Underway(cpus[c], place, booting);
    }
    hide StateAt, Changing, Underway, Flags;
  }

  /** Why a wakeup cannot queue a thread that is half switched: while a thread is being switched away
      from, the run queue lock of its cpu is not free, and that is the lock a wakeup needs. A thread
      with the lock free is on its cpu for good, or saved, or current on an idle cpu of its own. */
  lemma NotHalfSwitched(m: Machine, t: tid)
    requires m.Inv() && QueueFree(m.cpus, m.threads, t)
    ensures forall d :: 0 <= d < |m.cpus| && m.cpus[d].curthread == t ==>
              d == m.threads[t].cpu && (m.cpus[d].pc == Running || m.cpus[d].pc == Reaping || m.cpus[d].pc == Idle)
    ensures t in m.place && m.threads[t].state == StateAt(m.place[t], t in m.booting)
  {
    StateMatches(m.cpus, m.wchans, m.newborn, m.place, m.booting, m.threads, t);
    forall d | 0 <= d < |m.cpus| && m.cpus[d].curthread == t
      ensures d == m.threads[t].cpu && (m.cpus[d].pc == Running || m.cpus[d].pc == Reaping || m.cpus[d].pc == Idle)
    {
      CpuIs(m.cpus, m.wchans, m.newborn, m.place, m.booting, m.threads, d);
    }
  }

  /** At boot: the thread runs, no lock is held, and its state is S_READY. */
  method BootState() returns (m: Machine)
    ensures m.Inv() && |m.cpus| == 1 && m.cpus[0].pc == Running && !m.cpus[0].locked
    ensures m.cpus[0].curthread in m.threads && m.threads[m.cpus[0].curthread].state == S_READY
  {
    m := new Machine(1, {});
    assert m.cpus[0].curthread == 0 && 0 in m.threads;
  }
}
