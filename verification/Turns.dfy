/** In which order threads get a cpu, and sleepers are woken: laws over runs of the scheduler's machine. */
module Turns {
  import opened SchedState
  import opened SchedStep

  /** In the step cpu c switches to a thread. */
  predicate Switches(s: Sched, s': Sched, c: nat) {
    c < |s.cpus| && c < |s'.cpus| && !s.cpus[c].pc.Tail? && s'.cpus[c].pc.Tail?
  }

  /** How often cpu c has switched to a thread. */
  ghost function Count(s: Sched, steps: seq<Step>, c: nat): nat {
    if steps == [] then 0 else
      var before := steps[..|steps| - 1];
      Count(s, before, c) + if Switches(Reached(s, before), Reached(s, steps), c) then 1 else 0
  }

  /** Migration never takes the thread off the run queue of cpu c. */
  ghost predicate NotEvicted(s: Sched, steps: seq<Step>, c: nat, t: tid) {
    forall i :: 0 <= i < |steps| && steps[i] == Evicts(c) ==> Last(Reached(s, steps[..i]), c) != [t]
  }

  /** The last thread of a run queue, if any. */
  function Last(s: Sched, c: nat): seq<tid> {
    if c < |s.cpus| && s.cpus[c].runqueue != [] then [s.cpus[c].runqueue[|s.cpus[c].runqueue| - 1]] else []
  }

  /** A run queue loses its first thread, to the cpu; or, in a migration, its last one; or threads are added
      at its end. */
  ghost predicate QueueMoves(s: Sched, e: Step, s': Sched, c: nat)
    requires c < |s.cpus|
  {
    && |s'.cpus| == |s.cpus|
    && var q, q' := s.cpus[c].runqueue, s'.cpus[c].runqueue;
       if Switches(s, s', c) then q != [] && s'.cpus[c].curthread == q[0] && q' == q[1..]
       else q <= q' || (e == Evicts(c) && q != [] && q' == q[..|q| - 1])
  }

  predicate OfSwitch(e: Step) {
    e.Enters? || e.Places? || e.DropsLock? || e.SetsState? || e.Picks? || e.Unidles? || e.Finishes? || e.Exorcises?
  }

  lemma SwitchStep(s: Sched, e: Step, c: nat)
    requires c < |s.cpus| && OfSwitch(e)
    ensures QueueMoves(s, e, Next(s, e), c)
  {
    hide Destination, Queue, QueueFree, AtLarge;
  }

  lemma WakingStep(s: Sched, e: Step, c: nat)
    requires c < |s.cpus|
    requires e.LocksWchan? || e.UnlocksWchan? || e.TakesSleeper? || e.MakesRunnable? || e.Creates? || e.Starts?
    ensures QueueMoves(s, e, Next(s, e), c)
  {
    hide Destination, Left;
  }

  lemma MigrationStep(s: Sched, e: Step, c: nat)
    requires c < |s.cpus| && (e.Evicts? || e.Emigrates? || e.Returns?)
    ensures QueueMoves(s, e, Next(s, e), c)
  {
    hide Destination, Left;
  }

  lemma OneStep(s: Sched, e: Step, c: nat)
    requires c < |s.cpus|
    ensures QueueMoves(s, e, Next(s, e), c)
  {
    hide Next, QueueMoves;
    if OfSwitch(e) {
      SwitchStep(s, e, c);
    } else if e.Evicts? || e.Emigrates? || e.Returns? {
      MigrationStep(s, e, c);
    } else {
      WakingStep(s, e, c);
    }
  }

  /** A ready thread at place k of a run queue moves up by one with every switch of the cpu. */
  lemma {:induction false} MovesUp(s: Sched, steps: seq<Step>, c: nat, k: nat)
    requires c < |s.cpus| && k < |s.cpus[c].runqueue| && NotEvicted(s, steps, c, s.cpus[c].runqueue[k])
    requires Count(s, steps, c) <= k
    ensures |Reached(s, steps).cpus| == |s.cpus|
    ensures var q := Reached(s, steps).cpus[c].runqueue;
            k - Count(s, steps, c) < |q| && q[k - Count(s, steps, c)] == s.cpus[c].runqueue[k]
  {
    hide Next, Switches;
    if steps != [] {
      var before := steps[..|steps| - 1];
      assert forall i :: 0 <= i < |before| ==> before[..i] == steps[..i];
      MovesUp(s, before, c, k);
      var s1, e := Reached(s, before), steps[|steps| - 1];
      assert steps[..|before|] == before;
      OneStep(s1, e, c);
      var q, q' := s1.cpus[c].runqueue, Reached(s, steps).cpus[c].runqueue;
      var i := k - Count(s, before, c);
      assert e == Evicts(c) ==> q[|q| - 1] != q[i];
    }
  }

  /** First come, first served: the thread at place k of a run queue, unless it is migrated, is the one the cpu
      switches to after exactly k other switches. */
  lemma InTurn(s: Sched, steps: seq<Step>, e: Step, c: nat, k: nat)
    requires c < |s.cpus| && k < |s.cpus[c].runqueue| && NotEvicted(s, steps, c, s.cpus[c].runqueue[k])
    requires Count(s, steps, c) == k && Switches(Reached(s, steps), Next(Reached(s, steps), e), c)
    ensures Next(Reached(s, steps), e).cpus[c].curthread == s.cpus[c].runqueue[k]
  {
    hide Next, Switches;
    MovesUp(s, steps, c, k);
    OneStep(Reached(s, steps), e, c);
  }

  // ----- wait channels

  function Sleepers(s: Sched, w: nat): seq<tid> {
    if w in s.wchans then s.wchans[w].queue else []
  }

  /** In the step a sleeper is taken off the channel. */
  predicate Takes(s: Sched, s': Sched, w: nat) {
    |Sleepers(s', w)| < |Sleepers(s, w)|
  }

  ghost function Taken(s: Sched, steps: seq<Step>, w: nat): nat {
    if steps == [] then 0 else
      var before := steps[..|steps| - 1];
      Taken(s, before, w) + if Takes(Reached(s, before), Reached(s, steps), w) then 1 else 0
  }

  /** A channel loses its first sleeper, to the cpu that wakes it, or sleepers are added at its end. */
  ghost predicate ChannelMoves(s: Sched, e: Step, s': Sched, w: nat) {
    var q, q' := Sleepers(s, w), Sleepers(s', w);
    if Takes(s, s', w) then
      && q != [] && q' == q[1..] && e.c < |s.cpus| && e.c < |s'.cpus|
      && s'.cpus[e.c].woken == s.cpus[e.c].woken + [q[0]]
    else q <= q'
  }

  lemma ChannelStep(s: Sched, e: Step, w: nat)
    ensures ChannelMoves(s, e, Next(s, e), w)
  {
    hide AtLarge, QueueFree;
  }

  lemma {:induction false} SleeperMovesUp(s: Sched, steps: seq<Step>, w: nat, k: nat)
    requires k < |Sleepers(s, w)| && Taken(s, steps, w) <= k
    ensures var q := Sleepers(Reached(s, steps), w);
            k - Taken(s, steps, w) < |q| && q[k - Taken(s, steps, w)] == Sleepers(s, w)[k]
  {
    hide Next, Sleepers;
    if steps != [] {
      var before := steps[..|steps| - 1];
      SleeperMovesUp(s, before, w, k);
      ChannelStep(Reached(s, before), steps[|steps| - 1], w);
    }
  }

  /** The sleeper at place k of a channel is the one woken after exactly k others. */
  lemma WokenInTurn(s: Sched, steps: seq<Step>, e: Step, w: nat, k: nat)
    requires k < |Sleepers(s, w)| && Taken(s, steps, w) == k
    requires Takes(Reached(s, steps), Next(Reached(s, steps), e), w)
    ensures var s1, s2 := Reached(s, steps), Next(Reached(s, steps), e);
            e.c < |s1.cpus| && e.c < |s2.cpus| && s2.cpus[e.c].woken == s1.cpus[e.c].woken + [Sleepers(s, w)[k]]
  {
    hide Next, Sleepers;
    SleeperMovesUp(s, steps, w, k);
    ChannelStep(Reached(s, steps), e, w);
  }
}
