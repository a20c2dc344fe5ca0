/** shared_buffer.c: producers and consumers of a ring buffer, on the lock and the two condition
    variables of Synch, in any number and any interleaving. */
module SharedBuffer {
  import opened Products
  import opened Synch

  const PRODUCER_CV: nat := 0
  const CONSUMER_CV: nat := 1

  datatype Role = Producer(input: char) | Consumer

  /** How far a thread is in shared_buffer_produce or shared_buffer_consume. */
  datatype Pos =
    | Away
    | Entering(r: Role)               // in the first lock_acquire
    | Checking(r: Role, again: bool)  // at the loop's test; again: after a cv_wait
    | Waiting(r: Role)                // in cv_wait
    | Updated(r: Role)                // before cv_signal
    | Leaving(r: Role)                // before lock_release

  /** The cv a role waits on; it signals the other one. */
  function WaitCv(r: Role): nat {
    if r.Consumer? then CONSUMER_CV else PRODUCER_CV
  }

  function SignalCv(r: Role): nat {
    if r.Consumer? then PRODUCER_CV else CONSUMER_CV
  }

  /** In lock_acquire. */
  predicate Locking(pc: Pc) {
    pc.Acquiring? || pc.LockAsleep? || pc.LockWoken?
  }

  predicate Fits(pos: Pos, pc: Pc) {
    match pos
    case Away => pc == Out
    case Entering(r) => Locking(pc)
    case Checking(r, again) => pc == Holding
    case Waiting(r) => At(pc, WaitCv(r)) || pc == CvWoken(WaitCv(r)) || Locking(pc)
    case Updated(r) => pc == Holding
    case Leaving(r) => pc == Holding
  }

  ghost predicate PosOk(pos: map<tid, Pos>, pc: map<tid, Pc>) {
    pos.Keys == pc.Keys && forall t :: t in pos ==> Fits(pos[t], pc[t])
  }

  /** The thread was woken on the cv and has yet to check again, or has yet to signal the cv. */
  predicate IsTaker(pos: Pos, pc: Pc, cv: nat) {
    || (pos.Waiting? && WaitCv(pos.r) == cv && !At(pc, cv))
    || (pos.Checking? && pos.again && WaitCv(pos.r) == cv)
    || (pos.Updated? && SignalCv(pos.r) == cv)
  }

  ghost function Takers(pos: map<tid, Pos>, pc: map<tid, Pc>, cv: nat): set<tid> {
    set t | t in pos && t in pc && IsTaker(pos[t], pc[t], cv)
  }

  /** Some thread is on the cv's channel, or past the point of no return on its way there. */
  ghost predicate SomeAsleep(pc: map<tid, Pc>, cv: nat) {
    exists t :: t in pc && At(pc[t], cv)
  }

  /** What the threads waiting on the cv wait for: free slots, or characters. */
  function Supply(size: nat, count: nat, cv: nat): int {
    if cv == CONSUMER_CV then count else size - count
  }

  /** While threads sleep on the cv, there is a taker for each unit of what they wait for. */
  ghost predicate NoneLost(pos: map<tid, Pos>, pc: map<tid, Pc>, size: nat, count: nat, cv: nat) {
    SomeAsleep(pc, cv) ==> Supply(size, count, cv) <= |Takers(pos, pc, cv)|
  }

  lemma {:induction false} TakersChange(pos: map<tid, Pos>, pc: map<tid, Pc>, pos': map<tid, Pos>, pc': map<tid, Pc>,
                                        cv: nat, t: tid)
    requires pos.Keys == pc.Keys == pos'.Keys == pc'.Keys && t in pos
    requires forall u :: u in pos && u != t ==> (IsTaker(pos'[u], pc'[u], cv) <==> IsTaker(pos[u], pc[u], cv))
    ensures |Takers(pos', pc', cv)| == |Takers(pos, pc, cv)|
              - (if IsTaker(pos[t], pc[t], cv) then 1 else 0) + (if IsTaker(pos'[t], pc'[t], cv) then 1 else 0)
  {
    var s, s' := Takers(pos, pc, cv), Takers(pos', pc', cv);
    assert s - {t} == s' - {t};
    SetLess(s, t);
    SetLess(s', t);
  }

  // ----- the ring

  function Slot(out: nat, i: nat, size: nat): nat
    requires size > 0
  {
    (out + i) % size
  }

  ghost function Contents(ring: seq<char>, out: nat, count: nat): (s: seq<char>)
    requires |ring| > 0
    ensures |s| == count
  {
    seq(count, i requires 0 <= i < count => ring[Slot(out, i, |ring|)])
  }

  /** The characters produced are those consumed, followed by those in the ring. In a ring without slots
      there never are any. */
  ghost predicate RingOk(ring: seq<char>, into: nat, out: nat, count: nat, produced: seq<char>, consumed: seq<char>) {
    if |ring| == 0 then
      into == out == count == 0 && produced == consumed == []
    else
      && count <= |ring| && out < |ring|
      && into == Slot(out, count, |ring|)
      && produced == consumed + Contents(ring, out, count)
  }

  lemma SlotNext(out: nat, i: nat, size: nat)
    requires size > 0
    ensures Slot(out, i, size) < size
    ensures Slot(Slot(out, i, size), 1, size) == Slot(out, i + 1, size)
    ensures Slot(Slot(out, 1, size), i, size) == Slot(out, i + 1, size)
  {
    ModAdd(out + i, 1, size);
    ModAdd(out + 1, i, size);
  }

  lemma SlotsApart(out: nat, i: nat, j: nat, size: nat)
    requires size > 0 && out < size && i < j < size
    ensures Slot(out, i, size) != Slot(out, j, size)
  {
    Wrap(out + i, size);
    Wrap(out + j, size);
  }

  lemma Wrap(x: nat, size: nat)
    requires 0 < size && x < 2 * size
    ensures x % size == if x < size then x else x - size
  {
    UniqueQuotient(x, size, if x < size then 0 else 1, if x < size then x else x - size);
  }

  lemma PutChar(ring: seq<char>, into: nat, out: nat, count: nat, produced: seq<char>, consumed: seq<char>, c: char)
    requires RingOk(ring, into, out, count, produced, consumed) && count < |ring|
    ensures into < |ring| && RingOk(ring[into := c], Slot(into, 1, |ring|), out, count + 1, produced + [c], consumed)
  {
    SlotNext(out, count, |ring|);
    var ring' := ring[into := c];
    assert Contents(ring', out, count + 1) == Contents(ring, out, count) + [c] by {
      hide Slot;
      forall i | 0 <= i < count
        ensures Contents(ring', out, count + 1)[i] == Contents(ring, out, count)[i]
      {
        SlotsApart(out, i, count, |ring|);
        SlotNext(out, i, |ring|);
      }
    }
    hide Contents, Slot;
  }

  lemma GetChar(ring: seq<char>, into: nat, out: nat, count: nat, produced: seq<char>, consumed: seq<char>)
    requires RingOk(ring, into, out, count, produced, consumed) && count > 0
    ensures |consumed| < |produced| && ring[out] == produced[|consumed|]
    ensures RingOk(ring, into, Slot(out, 1, |ring|), count - 1, produced, consumed + [ring[out]])
  {
    Wrap(out, |ring|);
    SlotNext(out, 0, |ring|);
    SlotNext(out, count - 1, |ring|);
    assert Slot(out, 0, |ring|) == out;
    assert Contents(ring, out, count) == [ring[out]] + Contents(ring, Slot(out, 1, |ring|), count - 1) by {
      hide Slot;
      forall i | 0 < i < count
        ensures Contents(ring, out, count)[i] == Contents(ring, Slot(out, 1, |ring|), count - 1)[i - 1]
      {
        SlotNext(out, i - 1, |ring|);
      }
    }
    hide Contents, Slot;
  }

  // ----- the buffer and its threads

  ghost predicate AllOk(mon: MonState, pos: map<tid, Pos>, size: nat, count: nat) {
    && MonOk(mon) && PosOk(pos, mon.pc) && PRODUCER_CV in mon.cvs && CONSUMER_CV in mon.cvs
    && NoneLost(pos, mon.pc, size, count, PRODUCER_CV) && NoneLost(pos, mon.pc, size, count, CONSUMER_CV)
  }

  datatype Step =
    | Enters(t: tid, r: Role)
    | Locks(t: tid)
    | Checks(t: tid)
    | SignalsOther(t: tid)
    | Leaves(t: tid)
    | WaitsOn(t: tid)

  /** The ring, its indices and count, the lock and cvs, where each thread is, and all characters put in
      so far, and all taken out, in order. */
  datatype State = State(ring: seq<char>, into: nat, out: nat, count: nat, mon: MonState, pos: map<tid, Pos>,
                         produced: seq<char>, consumed: seq<char>)

  ghost predicate StateOk(s: State) {
    RingOk(s.ring, s.into, s.out, s.count, s.produced, s.consumed) && AllOk(s.mon, s.pos, |s.ring|, s.count)
  }

  /** The thread can take the step now. */
  predicate Enabled(mon: MonState, pos: map<tid, Pos>, e: Step) {
    && e.t in pos && e.t in mon.pc
    && match e
       case Enters(t, r) => pos[t] == Away
       case Locks(t) => mon.pc[t] == Acquiring || mon.pc[t] == LockWoken
       case Checks(t) => pos[t].Checking? && SpinFree(mon, WaitCv(pos[t].r))
       case SignalsOther(t) => pos[t].Updated? && SpinFree(mon, SignalCv(pos[t].r))
       case Leaves(t) => pos[t].Leaving?
       case WaitsOn(t) => pos[t].Waiting? && (mon.pc[t].WaitSpin? || mon.pc[t].WaitReleased?
                                              || (mon.pc[t].CvWoken? && SpinFree(mon, mon.pc[t].cv)))
  }

  /** The loop's test with the lock held, and the update when there is something to do. */
  function Checked(s: State, t: tid): State
    requires t in s.pos && s.pos[t].Checking?
  {
    var r := s.pos[t].r;
    if Supply(|s.ring|, s.count, WaitCv(r)) == 0 then
      s.(mon := MonNext(s.mon, Waits(t, WaitCv(r))), pos := s.pos[t := Waiting(r)])
    else if r.Producer? && s.into < |s.ring| then
      s.(ring := s.ring[s.into := r.input], into := Slot(s.into, 1, |s.ring|), count := s.count + 1,
         produced := s.produced + [r.input], pos := s.pos[t := Updated(r)])
    else if r.Consumer? && s.out < |s.ring| && s.count > 0 then
      s.(out := Slot(s.out, 1, |s.ring|), count := s.count - 1,
         consumed := s.consumed + [s.ring[s.out]], pos := s.pos[t := Updated(r)])
    else s
  }

  /** What the step does. */
  function Next(s: State, e: Step): State {
    if !Enabled(s.mon, s.pos, e) then
      s
    else
      match e
      case Enters(t, r) => s.(mon := MonNext(s.mon, Starts(t)), pos := s.pos[t := Entering(r)])
      case Locks(t) =>
        s.(mon := MonNext(s.mon, Tries(t)),
           pos := if s.mon.available then s.pos[t := Checking(RoleOf(s.pos[t]), s.pos[t].Waiting?)] else s.pos)
      case Checks(t) => Checked(s, t)
      case SignalsOther(t) =>
        s.(mon := MonNext(s.mon, Signals(t, SignalCv(s.pos[t].r))), pos := s.pos[t := Leaving(s.pos[t].r)])
      case Leaves(t) => s.(mon := MonNext(s.mon, Releases(t)), pos := s.pos[t := Away])
      case WaitsOn(t) =>
        s.(mon := MonNext(s.mon, if s.mon.pc[t].WaitSpin? then WaitReleases(t)
                                 else if s.mon.pc[t].WaitReleased? then WaitSleeps(t) else WaitWakes(t)))
  }

  lemma NextSignals(s: State, t: tid)
    requires t in s.pos && t in s.mon.pc && s.pos[t].Updated? && SpinFree(s.mon, SignalCv(s.pos[t].r))
    ensures Next(s, SignalsOther(t))
            == s.(mon := MonNext(s.mon, Signals(t, SignalCv(s.pos[t].r))), pos := s.pos[t := Leaving(s.pos[t].r)])
  {
    hide MonNext;
  }

  lemma Stays(s: State, e: Step)
    requires !Enabled(s.mon, s.pos, e)
    ensures Next(s, e) == s
  {
  }

  /** Nothing produced or consumed is taken back. */
  lemma OnlyGrows(s: State, e: Step)
    ensures s.produced <= Next(s, e).produced && s.consumed <= Next(s, e).consumed
  {
    hide MonNext, CanTake, Slot, SpinFree, Supply;
  }

  function Reached(s: State, steps: seq<Step>): State {
    if steps == [] then s else Next(Reached(s, steps[..|steps| - 1]), steps[|steps| - 1])
  }

  lemma OneMoreStep(s: State, steps: seq<Step>, i: nat)
    requires i < |steps|
    ensures Reached(s, steps[..i + 1]) == Next(Reached(s, steps[..i]), steps[i])
  {
    assert steps[..i + 1][..i] == steps[..i];
  }

  class Buffer {
    const size: nat
    const buffer: array<char>
    var into: nat
    var out: nat
    var count: nat
    const mon: Monitor
    var pos: map<tid, Pos>
    /** All characters put in so far, and all taken out, in order. */
    ghost var produced: seq<char>
    ghost var consumed: seq<char>

    ghost function Now(): State reads this, buffer, mon {
      State(buffer[..], into, out, count, mon.Now(), pos, produced, consumed)
    }

    ghost predicate Valid() reads this, buffer, mon {
      buffer.Length == size && StateOk(Now())
    }

    constructor (size: nat, threads: set<tid>)
      ensures Valid() && fresh(buffer) && fresh(mon) && produced == consumed == [] && this.size == size
      ensures pos == map t | t in threads :: Away
      ensures mon.available && mon.lockq == [] && mon.pc == map t | t in threads :: Out
      ensures mon.cvs == map[PRODUCER_CV := Cv(None, []), CONSUMER_CV := Cv(None, [])]
    {
      this.size := size;
      buffer := new char[size];
      into, out, count, produced, consumed := 0, 0, 0, [], [];
      mon := new Monitor(threads, {PRODUCER_CV, CONSUMER_CV});
      pos := map t | t in threads :: Away;
    }

    /** A call of shared_buffer_produce or shared_buffer_consume. */
    method Enter(t: tid, r: Role)
      requires Valid() && t in pos && pos[t] == Away
      modifies this`pos, mon
      ensures Valid() && Now() == Next(old(Now()), Enters(t, r))
      ensures pos == old(pos)[t := Entering(r)] && t in mon.pc && mon.pc[t] == Acquiring
    {
      hide MonNext, CanTake, RingOk, PosOk, NoneLost, HolderOk, LockQueueOk, CvsOk;
      UnfoldPos(pos, mon.pc, t);
      ghost var pc := mon.pc;
      mon.StartAcquire(t);
      OneMoves(pos, pc, pos[t := Entering(r)], mon.pc, size, count, t);
      pos := pos[t := Entering(r)];
    }

    /** A turn of lock_acquire's loop, in the call itself or at the end of cv_wait. */
    method Lock(t: tid)
      requires Valid() && t in pos && t in mon.pc && (mon.pc[t] == Acquiring || mon.pc[t] == LockWoken)
      modifies this`pos, mon
      ensures Valid() && Now() == Next(old(Now()), Locks(t))
      ensures old(mon.available) ==>
                old(pos[t]) != Away && pos == old(pos)[t := Checking(old(pos[t].r), old(pos[t]).Waiting?)]
      ensures !old(mon.available) ==> pos == old(pos)
    {
      hide MonNext, CanTake, RingOk, PosOk, NoneLost, HolderOk, LockQueueOk, CvsOk;
      UnfoldPos(pos, mon.pc, t);
      ghost var pc := mon.pc;
      var got := mon.TryAcquire(t);
      var p' := if got then Checking(pos[t].r, pos[t].Waiting?) else pos[t];
      OneMoves(pos, pc, pos[t := p'], mon.pc, size, count, t);
      pos := pos[t := p'];
    }

    /** The loop's test with the lock held: wait, or do the work. A consumer takes the oldest character
        produced and not yet consumed. */
    method Check(t: tid) returns (result: char)
      requires Valid() && t in pos && pos[t].Checking?
      requires WaitCv(pos[t].r) in mon.cvs && mon.cvs[WaitCv(pos[t].r)].spin == None
      modifies this, buffer, mon
      ensures Valid() && Now() == Next(old(Now()), Checks(t))
      ensures pos == old(pos)[t := if Supply(size, old(count), WaitCv(old(pos)[t].r)) == 0
                                   then Waiting(old(pos)[t].r) else Updated(old(pos)[t].r)]
      ensures pos[t].Waiting? ==> produced == old(produced) && consumed == old(consumed) && count == old(count)
      ensures pos[t].Updated? && pos[t].r.Producer?
              ==> produced == old(produced) + [pos[t].r.input] && consumed == old(consumed)
      ensures pos[t].Updated? && pos[t].r.Consumer?
              ==> produced == old(produced) && consumed == old(consumed) + [result]
    {
      hide MonNext, CanTake, RingOk, PosOk, NoneLost, HolderOk, LockQueueOk, CvsOk, Contents;
      UnfoldPos(pos, mon.pc, t);
      UnfoldRing(buffer[..], into, out, count, produced, consumed);
      ghost var pc := mon.pc;
      var r := pos[t].r;
      result := ' ';
      if r.Producer? {
        if size == count {
          mon.WaitBegin(t, PRODUCER_CV);
          GoesToWait(pos, pc, mon.pc, size, count, t, r);
          pos := pos[t := Waiting(r)];
          return;
        }
        PutChar(buffer[..], into, out, count, produced, consumed, r.input);
        ghost var ring := buffer[..];
        buffer[into] := r.input;
        assert buffer[..] == ring[into := r.input];
        into := (into + 1) % size;
        count := count + 1;
        produced := produced + [r.input];
      } else {
        if count == 0 {
          mon.WaitBegin(t, CONSUMER_CV);
          GoesToWait(pos, pc, mon.pc, size, count, t, r);
          pos := pos[t := Waiting(r)];
          return;
        }
        GetChar(buffer[..], into, out, count, produced, consumed);
        result := buffer[out];
        out := (out + 1) % size;
        count := count - 1;
        consumed := consumed + [result];
      }
      DoesWork(pos, mon.pc, size, old(count), count, t, r);
      pos := pos[t := Updated(r)];
    }

    /** cv_signal of the other role's cv. */
    method SignalOther(t: tid)
      requires Valid() && t in pos && pos[t].Updated?
      requires SignalCv(pos[t].r) in mon.cvs && mon.cvs[SignalCv(pos[t].r)].spin == None
      modifies this`pos, mon
      ensures Valid() && Now() == Next(old(Now()), SignalsOther(t))
      ensures pos == old(pos)[t := Leaving(old(pos[t].r))]
      ensures var cv := SignalCv(old(pos[t].r));
              cv in old(mon.cvs) && (if old(mon.cvs)[cv].queue == [] then mon.pc == old(mon.pc)
                                     else mon.pc == old(mon.pc)[old(mon.cvs)[cv].queue[0] := CvWoken(cv)])
    {
      hide MonNext, CanTake, RingOk, PosOk, NoneLost, HolderOk, LockQueueOk, CvsOk, Next, Enabled, SomeAsleep, Fits;
      UnfoldPos(pos, mon.pc, t);
      NextSignals(Now(), t);
      var r := pos[t].r;
      var cv := SignalCv(r);
      ghost var pc, q := mon.pc, mon.cvs[cv].queue;
      mon.QueueIs(cv);
      if q == [] { NobodyOnTheWay(mon, cv); }
      mon.Signal(t, cv);
      if q != [] {
        UnfoldPos(pos, pc, q[0]);
        Signalled(pos, pc, mon.pc, size, count, t, r, q[0]);
      } else {
        SignalledNobody(pos, pc, size, count, t, r);
      }
      pos := pos[t := Leaving(r)];
    }

    /** lock_release at the end of the call. */
    method Leave(t: tid)
      requires Valid() && t in pos && pos[t].Leaving?
      modifies this`pos, mon
      ensures Valid() && Now() == Next(old(Now()), Leaves(t))
      ensures pos == old(pos)[t := Away] && mon.available && t in mon.pc && mon.pc[t] == Out
    {
      hide MonNext, CanTake, RingOk, PosOk, NoneLost, HolderOk, LockQueueOk, CvsOk;
      UnfoldPos(pos, mon.pc, t);
      ghost var pc, lockq := mon.pc, mon.lockq;
      mon.LockQueueIs();
      mon.Release(t);
      if lockq != [] {
        UnfoldPos(pos, pc, lockq[0]);
        OneMoves(pos, pc, pos, pc[lockq[0] := LockWoken], size, count, lockq[0]);
        OneMoves(pos, pc[lockq[0] := LockWoken], pos[t := Away], mon.pc, size, count, t);
      } else {
        OneMoves(pos, pc, pos[t := Away], mon.pc, size, count, t);
      }
      pos := pos[t := Away];
    }

    /** The three steps of cv_wait that are not lock_acquire's. */
    method WaitOn(t: tid)
      requires Valid() && t in pos && pos[t].Waiting? && t in mon.pc
      requires mon.pc[t].WaitSpin? || mon.pc[t].WaitReleased?
               || (mon.pc[t].CvWoken? && mon.pc[t].cv in mon.cvs && mon.cvs[mon.pc[t].cv].spin == None)
      modifies mon
      ensures Valid() && Now() == Next(old(Now()), WaitsOn(t))
      ensures t in mon.pc && match old(mon.pc)[t]
                             case WaitSpin(cv) => mon.available && mon.pc[t] == WaitReleased(cv)
                             case WaitReleased(cv) => mon.pc[t] == CvAsleep(cv)
                             case _ => mon.pc[t] == Acquiring
    {
      hide MonNext, CanTake, RingOk, PosOk, NoneLost, HolderOk, LockQueueOk, CvsOk;
      UnfoldPos(pos, mon.pc, t);
      ghost var pc, lockq := mon.pc, mon.lockq;
      if mon.pc[t].WaitSpin? {
        mon.LockQueueIs();
        mon.WaitRelease(t);
        ghost var cv := pc[t].cv;
        if lockq != [] {
          UnfoldPos(pos, pc, lockq[0]);
          OneMoves(pos, pc, pos, pc[lockq[0] := LockWoken], size, count, lockq[0]);
          OneMoves(pos, pc[lockq[0] := LockWoken], pos, mon.pc, size, count, t);
        } else {
          OneMoves(pos, pc, pos, mon.pc, size, count, t);
        }
      } else if mon.pc[t].WaitReleased? {
        mon.WaitSleep(t);
        OneMoves(pos, pc, pos, mon.pc, size, count, t);
      } else {
        mon.WaitWake(t);
        OneMoves(pos, pc, pos, mon.pc, size, count, t);
      }
    }
  }

  // ----- runs

  /** One step of one thread. */
  method Take(b: Buffer, e: Step)
    requires b.Valid() && Enabled(b.mon.Now(), b.pos, e)
    modifies b, b.buffer, b.mon
    ensures b.Valid() && b.Now() == Next(old(b.Now()), e)
  {
    hide StateOk, Next;
    match e
    case Enters(t, r) => b.Enter(t, r);
    case Locks(t) => b.Lock(t);
    case Checks(t) => var result := b.Check(t);
    case SignalsOther(t) => b.SignalOther(t);
    case Leaves(t) => b.Leave(t);
    case WaitsOn(t) => b.WaitOn(t);
  }

  /** In every state of every interleaving of any number of producers and consumers, what was consumed and
      what is in the ring is what was produced, and no wakeup is lost. */
  method Run(b: Buffer, steps: seq<Step>)
    requires b.Valid()
    modifies b, b.buffer, b.mon
    ensures b.Valid() && b.Now() == Reached(old(b.Now()), steps)
    ensures old(b.produced) <= b.produced && old(b.consumed) <= b.consumed
    ensures forall i :: 0 <= i <= |steps| ==> StateOk(Reached(old(b.Now()), steps[..i]))
    ensures b.produced == old(b.produced) + Handed(old(b.Now()), steps)
    ensures |b.consumed| == old(|b.consumed|) + Collected(old(b.Now()), steps)
  {
    hide StateOk, Next, Enabled;
    ghost var was := b.Now();
    for i := 0 to |steps|
      invariant b.Valid() && b.Now() == Reached(was, steps[..i])
      invariant was.produced <= b.produced && was.consumed <= b.consumed
      invariant forall j :: 0 <= j <= i ==> StateOk(Reached(was, steps[..j]))
    {
      OneMoreStep(was, steps, i);
      OnlyGrows(b.Now(), steps[i]);
      if Enabled(b.mon.Now(), b.pos, steps[i]) {
        Take(b, steps[i]);
      } else {
        Stays(b.Now(), steps[i]);
      }
    }
    assert steps[..|steps|] == steps;
    InputsGetThere(was, steps);
  }

  /** The consumed characters are a prefix of the produced ones, the rest are in the ring, and the
      indices agree. */
  lemma FirstInFirstOut(b: Buffer)
    requires b.Valid()
    ensures b.consumed <= b.produced && |b.produced| == |b.consumed| + b.count && 0 <= b.count <= b.size
    ensures if b.size == 0 then b.produced == b.consumed == []
            else b.into == (b.out + b.count) % b.size && b.out < b.size
    ensures forall i :: 0 <= i < b.count ==> b.buffer[Slot(b.out, i, b.size)] == b.produced[|b.consumed| + i]
  {
    hide AllOk;
    forall i | 0 <= i < b.count
      ensures b.buffer[Slot(b.out, i, b.size)] == b.produced[|b.consumed| + i]
    {
      SlotNext(b.out, i, b.size);
      assert b.produced[|b.consumed| + i] == Contents(b.buffer[..], b.out, b.count)[i];
    }
  }

  // ----- calls

  /** What the position of a thread in a call can become. */
  predicate Follows(p: Pos, p': Pos) {
    match p
    case Away => p'.Entering?
    case Entering(r) => p' == Checking(r, false)
    case Checking(r, again) => p' == Waiting(r) || p' == Updated(r)
    case Waiting(r) => p' == Checking(r, true)
    case Updated(r) => p' == Leaving(r)
    case Leaving(r) => p' == Away
  }

  /** A thread keeps the role of its call up to its end, and gets to the end only through the update. */
  lemma RoleKept(s: State, e: Step, t: tid)
    requires StateOk(s) && t in s.pos
    ensures t in Next(s, e).pos
    ensures Next(s, e).pos[t] == s.pos[t] || (e.t == t && Follows(s.pos[t], Next(s, e).pos[t]))
    ensures e.Enters? && e.t == t && s.pos[t] == Away ==> Next(s, e).pos[t] == Entering(e.r)
    ensures Next(s, e).pos[t] != s.pos[t] && s.pos[t] == Away ==> e.Enters? && e.t == t
  {
    hide MonNext, RingOk, NoneLost, MonOk, CanTake;
    UnfoldPos(s.pos, s.mon.pc, t);
  }

  /** The role thread t was called with last. */
  ghost function CallOf(s: State, steps: seq<Step>, t: tid): Role {
    if steps == [] then
      if t in s.pos then RoleOf(s.pos[t]) else Consumer
    else
      var before, e := steps[..|steps| - 1], steps[|steps| - 1];
      if e.Enters? && e.t == t && t in Reached(s, before).pos && Reached(s, before).pos[t] == Away then e.r
      else CallOf(s, before, t)
  }

  /** The step is the update of the call the thread is in. */
  predicate Updates(s: State, s': State, t: tid) {
    t in s.pos && s.pos[t].Checking? && t in s'.pos && s'.pos[t].Updated?
  }

  /** What the calls that made their update were to put in, in order. */
  ghost function Handed(s: State, steps: seq<Step>): seq<char> {
    if steps == [] then [] else
      var before, e := steps[..|steps| - 1], steps[|steps| - 1];
      Handed(s, before) + if Updates(Reached(s, before), Reached(s, steps), e.t) && CallOf(s, before, e.t).Producer?
                          then [CallOf(s, before, e.t).input] else []
  }

  /** How many calls have taken a character out. */
  ghost function Collected(s: State, steps: seq<Step>): nat {
    if steps == [] then 0 else
      var before, e := steps[..|steps| - 1], steps[|steps| - 1];
      Collected(s, before) + if Updates(Reached(s, before), Reached(s, steps), e.t) && CallOf(s, before, e.t).Consumer?
                             then 1 else 0
  }

  /** One step: only an update puts anything in or takes anything out, and it does what its role says. */
  lemma OneUpdate(s: State, e: Step)
    requires StateOk(s)
    ensures var s' := Next(s, e);
            && (Updates(s, s', e.t) && s.pos[e.t].r.Producer? ==> s'.produced == s.produced + [s.pos[e.t].r.input])
            && (Updates(s, s', e.t) && s.pos[e.t].r.Consumer? ==> |s'.consumed| == |s.consumed| + 1)
            && (!(Updates(s, s', e.t) && s.pos[e.t].r.Producer?) ==> s'.produced == s.produced)
            && (!(Updates(s, s', e.t) && s.pos[e.t].r.Consumer?) ==> s'.consumed == s.consumed)
  {
    hide MonNext, NoneLost, MonOk, CanTake, Contents;
  }

  /** Over any run, every producer's update puts in the character its call was made with, and nothing else is
      ever put in; every consumer's update takes one character out, and nothing else is ever taken. */
  lemma {:induction false} InputsGetThere(s: State, steps: seq<Step>)
    requires forall i :: 0 <= i <= |steps| ==> StateOk(Reached(s, steps[..i]))
    ensures Reached(s, steps).produced == s.produced + Handed(s, steps)
    ensures |Reached(s, steps).consumed| == |s.consumed| + Collected(s, steps)
    ensures forall t :: t in s.pos ==>
              t in Reached(s, steps).pos
              && (Reached(s, steps).pos[t] != Away ==> RoleOf(Reached(s, steps).pos[t]) == CallOf(s, steps, t))
    ensures Reached(s, steps).pos.Keys == s.pos.Keys
  {
    hide Next, StateOk, Follows;
    if steps != [] {
      var before, e := steps[..|steps| - 1], steps[|steps| - 1];
      assert forall i :: 0 <= i <= |before| ==> before[..i] == steps[..i];
      InputsGetThere(s, before);
      var s1 := Reached(s, before);
      assert StateOk(Reached(s, steps[..|before|]));
      OneUpdate(s1, e);
      SameThreads(s1, e);
      forall t | t in s.pos
        ensures Reached(s, steps).pos[t] != Away ==> RoleOf(Reached(s, steps).pos[t]) == CallOf(s, steps, t)
      {
        RoleKept(s1, e, t);
        FollowsRole(s1.pos[t], Reached(s, steps).pos[t]);
      }
    }
  }

  lemma FollowsRole(p: Pos, p': Pos)
    ensures Follows(p, p') && p != Away && p' != Away ==> RoleOf(p') == RoleOf(p)
  {
  }

  lemma SameThreads(s: State, e: Step)
    requires StateOk(s)
    ensures Next(s, e).pos.Keys == s.pos.Keys
  {
    hide MonNext, RingOk, NoneLost, MonOk, CanTake;
  }

  // ----- no standstill

  ghost predicate CanMove(b: Buffer)
    reads b, b.buffer, b.mon
  {
    exists e :: Enabled(b.mon.Now(), b.pos, e) && !e.Enters? && GetsOn(b.Now(), e)
  }

  /** The thread is somewhere else after the step. */
  predicate GetsOn(s: State, e: Step) {
    && e.t in s.pos && e.t in Next(s, e).pos && e.t in s.mon.pc && e.t in Next(s, e).mon.pc
    && (Next(s, e).pos[e.t] != s.pos[e.t] || Next(s, e).mon.pc[e.t] != s.mon.pc[e.t])
  }

  lemma EnabledGetsOn(b: Buffer, e: Step)
    requires b.Valid() && Enabled(b.mon.Now(), b.pos, e) && !e.Enters?
    ensures CanMove(b)
  {
    StepGetsOn(b.Now(), e);
  }

  lemma StepGetsOn(s: State, e: Step)
    requires StateOk(s) && Enabled(s.mon, s.pos, e) && !e.Enters?
    ensures GetsOn(s, e)
  {
    hide NoneLost, CvsOk, Contents;
    UnfoldPos(s.pos, s.mon.pc, e.t);
  }

  /** Whoever has a cv's spinlock can go on. */
  lemma SpinnerMoves(b: Buffer, cv: nat)
    requires b.Valid() && cv in b.mon.cvs && b.mon.cvs[cv].spin != None
    ensures CanMove(b)
  {
    hide RingOk, NoneLost, PosOk, HolderOk, LockQueueOk, CvsOk, Fits;
    var v := b.mon.cvs[cv].spin.t;
    Spinner(b.mon.cvs, b.mon.pc, cv);
    UnfoldPos(b.pos, b.mon.pc, v);
    IsWaiting(b.pos[v], b.mon.pc[v]);
    EnabledGetsOn(b, WaitsOn(v));
  }

  lemma Spinner(cvs: map<nat, Cv>, pc: map<tid, Pc>, cv: nat)
    requires CvsOk(cvs, pc) && cv in cvs && cvs[cv].spin != None
    ensures cvs[cv].spin.t in pc && (pc[cvs[cv].spin.t] == WaitSpin(cv) || pc[cvs[cv].spin.t] == WaitReleased(cv))
  {
    assert CvOk(cv, cvs[cv], pc);
  }

  lemma IsWaiting(pos: Pos, pc: Pc)
    requires Fits(pos, pc) && (pc.WaitSpin? || pc.WaitReleased?)
    ensures pos.Waiting?
  {
  }

  /** A thread in the middle of a call that is not asleep can go on, or waits for a spinlock whose
      owner can. */
  lemma AwakeMoves(b: Buffer, t: tid)
    requires b.Valid() && t in b.pos && t in b.mon.pc && b.pos[t] != Away
    requires b.mon.pc[t] != LockAsleep && !b.mon.pc[t].CvAsleep?
    ensures CanMove(b)
  {
    hide RingOk, NoneLost, CvOk;
    UnfoldPos(b.pos, b.mon.pc, t);
    if b.mon.pc[t] == Acquiring || b.mon.pc[t] == LockWoken {
      EnabledGetsOn(b, Locks(t));
    } else if b.mon.pc[t] == Holding {
      var r := b.pos[t].r;
      if b.pos[t].Leaving? {
        EnabledGetsOn(b, Leaves(t));
      } else if b.pos[t].Checking? && b.mon.cvs[WaitCv(r)].spin == None {
        EnabledGetsOn(b, Checks(t));
      } else if b.pos[t].Updated? && b.mon.cvs[SignalCv(r)].spin == None {
        EnabledGetsOn(b, SignalsOther(t));
      } else {
        SpinnerMoves(b, if b.pos[t].Checking? then WaitCv(r) else SignalCv(r));
      }
    } else if b.mon.pc[t].CvWoken? && b.mon.cvs[b.mon.pc[t].cv].spin != None {
      SpinnerMoves(b, b.mon.pc[t].cv);
    } else {
      EnabledGetsOn(b, WaitsOn(t));
    }
  }

  /** While a thread sleeps on the lock, some thread can go on. */
  lemma LockMoves(b: Buffer, t: tid)
    requires b.Valid() && t in b.mon.pc && b.mon.pc[t] == LockAsleep
    ensures CanMove(b)
  {
    hide RingOk, NoneLost, CvsOk;
    assert t in b.mon.lockq;
    var u: tid;
    if b.mon.available {
      u :| u in b.mon.pc && b.mon.pc[u] == LockWoken;
    } else {
      u := b.mon.holder.t;
    }
    UnfoldPos(b.pos, b.mon.pc, u);
    AwakeMoves(b, u);
  }

  /** A system with a slot never stops with a producer and a consumer both asleep: one unit at least is there
      for one of them, and with it a taker. */
  lemma NoStandstill(b: Buffer, p: tid, c: tid)
    requires b.Valid() && b.size > 0 && p in b.mon.pc && c in b.mon.pc
    requires b.mon.pc[p] == CvAsleep(PRODUCER_CV) && b.mon.pc[c] == CvAsleep(CONSUMER_CV)
    ensures CanMove(b)
  {
    hide PosOk, HolderOk, LockQueueOk, CvsOk;
    assert At(b.mon.pc[p], PRODUCER_CV) && At(b.mon.pc[c], CONSUMER_CV);
    var cv := if b.count > 0 then CONSUMER_CV else PRODUCER_CV;
    assert SomeAsleep(b.mon.pc, cv) && Supply(b.size, b.count, cv) > 0;
    assert Takers(b.pos, b.mon.pc, cv) != {};
    var u :| u in Takers(b.pos, b.mon.pc, cv);
    UnfoldPos(b.pos, b.mon.pc, u);
    if b.mon.pc[u] == LockAsleep {
      LockMoves(b, u);
    } else {
      AwakeMoves(b, u);
    }
  }

  /** Without a slot it does stop: a producer and a consumer go to sleep, and nobody can go on. */
  method NoSlot() returns (b: Buffer)
    ensures fresh(b) && b.Valid() && b.size == 0 && 0 in b.mon.pc && 1 in b.mon.pc
    ensures b.mon.pc[0] == CvAsleep(PRODUCER_CV) && b.mon.pc[1] == CvAsleep(CONSUMER_CV) && !CanMove(b)
  {
    hide *;
    b := new Buffer(0, {0, 1});
    NowIs(b);
    BothSleep(b.Now());
    Run(b, SleepSteps(0, Producer(' ')));
    Run(b, SleepSteps(1, Consumer));
    NowIs(b);
    NobodyMoves(b);
  }

  lemma BothSleep(s: State)
    requires s.pos.Keys == s.mon.pc.Keys == {0, 1} && s.pos[0] == s.pos[1] == Away && s.mon.pc[0] == s.mon.pc[1] == Out
    requires s.mon.available && s.mon.lockq == [] && |s.ring| == s.count == 0
    requires s.mon.cvs == map[PRODUCER_CV := Cv(None, []), CONSUMER_CV := Cv(None, [])]
    ensures var s2 := Reached(Reached(s, SleepSteps(0, Producer(' '))), SleepSteps(1, Consumer));
            && s2.pos == map[0 := Waiting(Producer(' ')), 1 := Waiting(Consumer)]
            && s2.mon.pc == map[0 := CvAsleep(PRODUCER_CV), 1 := CvAsleep(CONSUMER_CV)]
  {
    hide Reached, Next, SleepSteps;
    Sleeps(s, 0, Producer(' '));
    var s1 := Reached(s, SleepSteps(0, Producer(' ')));
    Sleeps(s1, 1, Consumer);
  }

  lemma NobodyMoves(b: Buffer)
    requires b.pos.Keys == b.mon.pc.Keys == {0, 1} && b.pos[0].Waiting? && b.pos[1].Waiting?
    requires b.mon.pc[0].CvAsleep? && b.mon.pc[1].CvAsleep?
    ensures !CanMove(b)
  {
  }

  lemma NowIs(b: Buffer)
    requires b.Valid()
    ensures b.Now().pos == b.pos && b.Now().mon.pc == b.mon.pc && b.Now().mon.cvs == b.mon.cvs
    ensures b.Now().mon.available == b.mon.available && b.Now().mon.lockq == b.mon.lockq
    ensures |b.Now().ring| == b.size && (b.size == 0 ==> b.Now().count == 0)
  {
    hide AllOk;
  }

  function SleepSteps(t: tid, r: Role): seq<Step> {
    [Enters(t, r), Locks(t), Checks(t), WaitsOn(t), WaitsOn(t)]
  }

  /** A call on a buffer without slots, by a thread that finds the lock free: it ends up asleep. */
  lemma Sleeps(s: State, t: tid, r: Role)
    requires t in s.pos && t in s.mon.pc && s.pos[t] == Away && s.mon.pc[t] == Out && |s.ring| == s.count == 0
    requires s.mon.available && s.mon.lockq == [] && WaitCv(r) in s.mon.cvs && s.mon.cvs[WaitCv(r)] == Cv(None, [])
    ensures Reached(s, SleepSteps(t, r))
            == s.(mon := s.mon.(holder := None, cvs := s.mon.cvs[WaitCv(r) := Cv(None, [t])],
                                pc := s.mon.pc[t := CvAsleep(WaitCv(r))]),
                  pos := s.pos[t := Waiting(r)])
  {
    hide Reached, Next;
    var steps := SleepSteps(t, r);
    ReachedAll(s, steps);
    EntersTo(s, t, r);
    var s1 := Next(s, Enters(t, r));
    LocksTo(s1, t, r);
    var s2 := Next(s1, Locks(t));
    ChecksTo(s2, t, r);
    var s3 := Next(s2, Checks(t));
    ReleasesTo(s3, t, WaitCv(r));
    var s4 := Next(s3, WaitsOn(t));
    SleepsTo(s4, t, WaitCv(r));
    var s5 := Next(s4, WaitsOn(t));
    assert s4.mon.cvs[WaitCv(r)].queue + [t] == [t];
    assert s5.mon.pc == s.mon.pc[t := CvAsleep(WaitCv(r))];
    assert s5.mon.cvs == s.mon.cvs[WaitCv(r) := Cv(None, [t])];
    assert s5.pos == s.pos[t := Waiting(r)];
  }

  lemma ReachedAll(s: State, steps: seq<Step>)
    requires |steps| == 5
    ensures Reached(s, steps) == Next(Next(Next(Next(Next(s, steps[0]), steps[1]), steps[2]), steps[3]), steps[4])
  {
    hide Next;
    OneMoreStep(s, steps, 4);
    OneMoreStep(s, steps, 3);
    OneMoreStep(s, steps, 2);
    OneMoreStep(s, steps, 1);
    OneMoreStep(s, steps, 0);
    assert steps[..5] == steps && steps[..0] == [];
  }

  /** The steps of that call, one by one. */
  lemma EntersTo(s: State, t: tid, r: Role)
    requires t in s.pos && t in s.mon.pc && s.pos[t] == Away && s.mon.pc[t] == Out
    ensures Next(s, Enters(t, r))
            == s.(mon := s.mon.(pc := s.mon.pc[t := Acquiring]), pos := s.pos[t := Entering(r)])
  {
  }

  lemma LocksTo(s: State, t: tid, r: Role)
    requires t in s.pos && t in s.mon.pc && s.pos[t] == Entering(r) && s.mon.pc[t] == Acquiring && s.mon.available
    ensures Next(s, Locks(t))
            == s.(mon := s.mon.(available := false, holder := By(t), pc := s.mon.pc[t := Holding]),
                  pos := s.pos[t := Checking(r, false)])
  {
  }

  lemma ChecksTo(s: State, t: tid, r: Role)
    requires t in s.pos && t in s.mon.pc && s.pos[t] == Checking(r, false) && s.mon.pc[t] == Holding
    requires SpinFree(s.mon, WaitCv(r)) && |s.ring| == s.count == 0
    ensures Next(s, Checks(t))
            == s.(mon := s.mon.(cvs := s.mon.cvs[WaitCv(r) := s.mon.cvs[WaitCv(r)].(spin := By(t))],
                                pc := s.mon.pc[t := WaitSpin(WaitCv(r))]),
                  pos := s.pos[t := Waiting(r)])
  {
  }

  lemma ReleasesTo(s: State, t: tid, cv: nat)
    requires t in s.pos && t in s.mon.pc && s.pos[t].Waiting? && s.mon.pc[t] == WaitSpin(cv) && s.mon.lockq == []
    ensures Next(s, WaitsOn(t))
            == s.(mon := s.mon.(available := true, holder := None, pc := s.mon.pc[t := WaitReleased(cv)]))
  {
  }

  lemma SleepsTo(s: State, t: tid, cv: nat)
    requires t in s.pos && t in s.mon.pc && s.pos[t].Waiting? && s.mon.pc[t] == WaitReleased(cv) && cv in s.mon.cvs
    ensures Next(s, WaitsOn(t))
            == s.(mon := s.mon.(cvs := s.mon.cvs[cv := Cv(None, s.mon.cvs[cv].queue + [t])],
                                pc := s.mon.pc[t := CvAsleep(cv)]))
  {
  }

  function RoleOf(p: Pos): Role {
    if p.Away? then Consumer else p.r
  }

  lemma UnfoldPos(pos: map<tid, Pos>, pc: map<tid, Pc>, t: tid)
    requires PosOk(pos, pc) && (t in pc || t in pos)
    ensures t in pos && t in pc && Fits(pos[t], pc[t]) && pos.Keys == pc.Keys
  {
  }

  lemma UnfoldRing(ring: seq<char>, into: nat, out: nat, count: nat, produced: seq<char>, consumed: seq<char>)
    requires RingOk(ring, into, out, count, produced, consumed)
    ensures count <= |ring| && (|ring| > 0 ==> out < |ring|)
  {
  }

  lemma NobodyOnTheWay(m: Monitor, cv: nat)
    requires m.Valid() && cv in m.cvs && m.cvs[cv].spin == None && m.cvs[cv].queue == []
    ensures !SomeAsleep(m.pc, cv)
  {
    forall t | t in m.pc
      ensures !At(m.pc[t], cv)
    {
      m.WaitersAreThere(cv, t);
    }
  }

  /** One thread moves, without sleeping on a cv, and stays a taker where it was one. */
  lemma OneMoves(pos: map<tid, Pos>, pc: map<tid, Pc>, pos': map<tid, Pos>, pc': map<tid, Pc>, size: nat, count: nat,
                 t: tid)
    requires PosOk(pos, pc) && t in pos && t in pc && t in pos' && t in pc' && pos' == pos[t := pos'[t]]
             && pc' == pc[t := pc'[t]]
    requires Fits(pos'[t], pc'[t])
    requires forall cv :: IsTaker(pos[t], pc[t], cv) ==> IsTaker(pos'[t], pc'[t], cv)
    requires forall cv :: At(pc'[t], cv) ==> At(pc[t], cv)
    requires NoneLost(pos, pc, size, count, PRODUCER_CV) && NoneLost(pos, pc, size, count, CONSUMER_CV)
    ensures PosOk(pos', pc')
    ensures NoneLost(pos', pc', size, count, PRODUCER_CV) && NoneLost(pos', pc', size, count, CONSUMER_CV)
  {
    hide SomeAsleep, Takers;
    assert pos.Keys == pos'.Keys && pc.Keys == pc'.Keys;
    TakersChange(pos, pc, pos', pc', PRODUCER_CV, t);
    TakersChange(pos, pc, pos', pc', CONSUMER_CV, t);
    StillAsleep(pc, pc', t, PRODUCER_CV);
    StillAsleep(pc, pc', t, CONSUMER_CV);
  }

  lemma StillAsleep(pc: map<tid, Pc>, pc': map<tid, Pc>, t: tid, cv: nat)
    requires t in pc && t in pc' && pc' == pc[t := pc'[t]] && (At(pc'[t], cv) ==> At(pc[t], cv))
    ensures SomeAsleep(pc', cv) ==> SomeAsleep(pc, cv)
  {
    if SomeAsleep(pc', cv) {
      var u :| u in pc' && At(pc'[u], cv);
      assert u in pc && At(pc[u], cv);
    }
  }

  /** A thread that found nothing goes to wait. */
  lemma GoesToWait(pos: map<tid, Pos>, pc: map<tid, Pc>, pc': map<tid, Pc>, size: nat, count: nat, t: tid, r: Role)
    requires PosOk(pos, pc) && t in pos && t in pc && pos[t].Checking? && pos[t].r == r
    requires pc' == pc[t := WaitSpin(WaitCv(r))] && Supply(size, count, WaitCv(r)) == 0
    requires NoneLost(pos, pc, size, count, PRODUCER_CV) && NoneLost(pos, pc, size, count, CONSUMER_CV)
    ensures PosOk(pos[t := Waiting(r)], pc')
    ensures NoneLost(pos[t := Waiting(r)], pc', size, count, PRODUCER_CV)
    ensures NoneLost(pos[t := Waiting(r)], pc', size, count, CONSUMER_CV)
  {
    var other := SignalCv(r);
    assert pos.Keys == pos[t := Waiting(r)].Keys && pc.Keys == pc'.Keys;
    TakersChange(pos, pc, pos[t := Waiting(r)], pc', other, t);
    StillAsleep(pc, pc', t, other);
  }

  /** A thread does its work: one unit less for its own role, one more for the other, which it will
      signal. */
  lemma DoesWork(pos: map<tid, Pos>, pc: map<tid, Pc>, size: nat, count: nat, count': nat, t: tid, r: Role)
    requires PosOk(pos, pc) && t in pos && t in pc && pos[t].Checking? && pos[t].r == r && count <= size
             && count' <= size
    requires if r.Producer? then count' == count + 1 else count' + 1 == count
    requires NoneLost(pos, pc, size, count, PRODUCER_CV) && NoneLost(pos, pc, size, count, CONSUMER_CV)
    ensures PosOk(pos[t := Updated(r)], pc)
    ensures NoneLost(pos[t := Updated(r)], pc, size, count', PRODUCER_CV)
    ensures NoneLost(pos[t := Updated(r)], pc, size, count', CONSUMER_CV)
  {
    assert pos.Keys == pos[t := Updated(r)].Keys;
    TakersChange(pos, pc, pos[t := Updated(r)], pc, PRODUCER_CV, t);
    TakersChange(pos, pc, pos[t := Updated(r)], pc, CONSUMER_CV, t);
  }

  /** The signal passes from the thread that gave it to the one it woke. */
  lemma Signalled(pos: map<tid, Pos>, pc: map<tid, Pc>, pc': map<tid, Pc>, size: nat, count: nat, t: tid, r: Role,
                  w: tid)
    requires PosOk(pos, pc) && t in pos && t in pc && pos[t] == Updated(r)
    requires w in pc && w in pos && pc[w] == CvAsleep(SignalCv(r)) && pc' == pc[w := CvWoken(SignalCv(r))]
    requires NoneLost(pos, pc, size, count, PRODUCER_CV) && NoneLost(pos, pc, size, count, CONSUMER_CV)
    ensures PosOk(pos[t := Leaving(r)], pc')
    ensures NoneLost(pos[t := Leaving(r)], pc', size, count, PRODUCER_CV)
    ensures NoneLost(pos[t := Leaving(r)], pc', size, count, CONSUMER_CV)
  {
    hide NoneLost;
    assert Fits(pos[w], pc[w]) && pos[w].Waiting? && w != t;
    SignalledFor(pos, pc, pc', size, count, t, r, w, PRODUCER_CV);
    SignalledFor(pos, pc, pc', size, count, t, r, w, CONSUMER_CV);
  }

  lemma SignalledFor(pos: map<tid, Pos>, pc: map<tid, Pc>, pc': map<tid, Pc>, size: nat, count: nat, t: tid, r: Role,
                     w: tid, cv: nat)
    requires pos.Keys == pc.Keys && t in pos && pos[t] == Updated(r) && w != t
             && (cv == PRODUCER_CV || cv == CONSUMER_CV)
    requires w in pc && pc[w] == CvAsleep(SignalCv(r)) && pos[w].Waiting? && Fits(pos[w], pc[w])
             && pc' == pc[w := CvWoken(SignalCv(r))]
    requires NoneLost(pos, pc, size, count, cv)
    ensures NoneLost(pos[t := Leaving(r)], pc', size, count, cv)
  {
    hide SomeAsleep, Takers;
    var pos' := pos[t := Leaving(r)];
    assert pos.Keys == pos'.Keys && pc.Keys == pc'.Keys;
    TakersChange(pos, pc, pos, pc', cv, w);
    TakersChange(pos, pc', pos', pc', cv, t);
    StillAsleep(pc, pc', w, cv);
  }

  lemma SignalledNobody(pos: map<tid, Pos>, pc: map<tid, Pc>, size: nat, count: nat, t: tid, r: Role)
    requires PosOk(pos, pc) && t in pos && t in pc && pos[t] == Updated(r) && !SomeAsleep(pc, SignalCv(r))
    requires NoneLost(pos, pc, size, count, PRODUCER_CV) && NoneLost(pos, pc, size, count, CONSUMER_CV)
    ensures PosOk(pos[t := Leaving(r)], pc)
    ensures NoneLost(pos[t := Leaving(r)], pc, size, count, PRODUCER_CV)
    ensures NoneLost(pos[t := Leaving(r)], pc, size, count, CONSUMER_CV)
  {
    assert pos.Keys == pos[t := Leaving(r)].Keys;
    TakersChange(pos, pc, pos[t := Leaving(r)], pc, WaitCv(r), t);
  }
}
