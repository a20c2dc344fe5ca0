/** thread_consider_migration: the run queues of all cpus, what other cpus may do to them whenever the
    locks are free, and the balance the migration reaches when they do nothing. */
module Migration {

  type tid = nat

  /** Something another cpu does under a run queue lock: pick or evict a thread of its own queue, or
      put a thread that is on no list on a queue. */
  datatype Op = Take(d: nat, last: bool) | Put(t: tid, e: nat)

  function Threads(queues: seq<seq<tid>>): multiset<tid> {
    if queues == [] then multiset{} else multiset(queues[0]) + Threads(queues[1..])
  }

  function Total(queues: seq<seq<tid>>): nat {
    if queues == [] then 0 else |queues[0]| + Total(queues[1..])
  }

  /** How many threads the queues from the i-th on, but for one's own, can take up to `share' each. */
  function Room(queues: seq<seq<tid>>, me: nat, share: nat, i: nat): nat
    decreases |queues| - i
  {
    if i >= |queues| then 0 else
      (if i == me || |queues[i]| >= share then 0 else share - |queues[i]|) + Room(queues, me, share, i + 1)
  }

  lemma {:induction false} ThreadsUpdate(queues: seq<seq<tid>>, d: nat, q: seq<tid>)
    requires d < |queues|
    ensures multiset(queues[d]) <= Threads(queues)
    ensures Threads(queues[d := q]) == Threads(queues) - multiset(queues[d]) + multiset(q)
  {
    if d == 0 {
      assert queues[d := q][1..] == queues[1..];
    } else {
      ThreadsUpdate(queues[1..], d - 1, q);
      assert queues[d := q][1..] == queues[1..][d - 1 := q];
    }
  }

  lemma {:induction false} TotalPrefix(queues: seq<seq<tid>>, i: nat)
    requires i < |queues|
    ensures Total(queues[..i + 1]) == Total(queues[..i]) + |queues[i]|
  {
    if i > 0 {
      TotalPrefix(queues[1..], i - 1);
      assert queues[..i + 1][1..] == queues[1..][..i] && queues[..i][1..] == queues[1..][..i - 1];
    } else {
      assert queues[..1][1..] == [];
    }
  }

  /** The queues together can take what one queue has beyond its share. */
  lemma {:induction false} RoomEnough(queues: seq<seq<tid>>, me: nat, share: nat, i: nat)
    requires i <= |queues|
    ensures Room(queues, me, share, i) >=
            (|queues| - i) * share - Total(queues[i..]) + (if i <= me < |queues| then |queues[me]| - share else 0)
    decreases |queues| - i
  {
    if i < |queues| {
      RoomEnough(queues, me, share, i + 1);
      assert queues[i..][1..] == queues[i + 1..];
      assert (|queues| - i) * share == (|queues| - (i + 1)) * share + share;
    }
  }

  lemma {:induction false} RoomSame(queues: seq<seq<tid>>, queues': seq<seq<tid>>, me: nat, share: nat, i: nat)
    requires |queues| == |queues'| && forall d :: i <= d < |queues| ==> queues'[d] == queues[d]
    ensures Room(queues', me, share, i) == Room(queues, me, share, i)
    decreases |queues| - i
  {
    if i < |queues| {
      RoomSame(queues, queues', me, share, i + 1);
    }
  }

  /** DIVROUNDUP */
  function DivRoundUp(a: nat, b: nat): nat
    requires b > 0
  {
    (a + b - 1) / b
  }

  lemma RoundsUp(a: nat, b: nat)
    requires b > 0
    ensures DivRoundUp(a, b) * b >= a && (DivRoundUp(a, b) > 0 ==> (DivRoundUp(a, b) - 1) * b < a)
  {
    var q := DivRoundUp(a, b);
    assert a + b - 1 == q * b + (a + b - 1) % b;
    assert (q - 1) * b == q * b - b;
  }

  /** Every thread on a queue has that queue's cpu as its t_cpu. */
  ghost predicate Owned(queues: seq<seq<tid>>, cpuOf: map<tid, nat>) {
    forall d, t :: 0 <= d < |queues| && t in queues[d] ==> t in cpuOf && cpuOf[t] == d
  }

  ghost predicate AllOf(list: seq<tid>, cpuOf: map<tid, nat>, d: nat) {
    forall t :: t in list ==> t in cpuOf && cpuOf[t] == d
  }

  ghost predicate Once(threads: multiset<tid>) {
    forall t :: threads[t] <= 1
  }

  /** All threads, wherever they are. */
  ghost function Everyone(queues: seq<seq<tid>>, victims: seq<tid>, limbo: set<tid>): multiset<tid> {
    Threads(queues) + multiset(victims) + multiset(limbo)
  }

  /** Each thread is in one place at most; a thread on a run queue, or a victim, belongs to that cpu. */
  ghost predicate QueuesOk(queues: seq<seq<tid>>, victims: seq<tid>, limbo: set<tid>, cpuOf: map<tid, nat>, me: nat,
                           cur: tid) {
    && me < |queues| && Once(Everyone(queues, victims, limbo))
    && Owned(queues, cpuOf) && AllOf(victims, cpuOf, me) && AllOf([cur], cpuOf, me)
  }

  lemma OwnedLess(queues: seq<seq<tid>>, d: nat, q: seq<tid>, cpuOf: map<tid, nat>, t: tid)
    requires Owned(queues, cpuOf) && d < |queues| && multiset(queues[d]) == multiset(q) + multiset{t}
    ensures Owned(queues[d := q], cpuOf) && t in cpuOf && cpuOf[t] == d
  {
    assert forall x :: x in q ==> x in multiset(q) && x in multiset(queues[d]);
    assert t in multiset(queues[d]);
  }

  lemma OwnedMore(queues: seq<seq<tid>>, e: nat, t: tid, cpuOf: map<tid, nat>)
    requires Owned(queues, cpuOf) && e < |queues| && forall d :: 0 <= d < |queues| ==> t !in queues[d]
    ensures Owned(queues[e := queues[e] + [t]], cpuOf[t := e])
  {
  }

  lemma NotQueued(queues: seq<seq<tid>>, t: tid)
    requires Threads(queues)[t] == 0
    ensures forall d :: 0 <= d < |queues| ==> t !in queues[d]
  {
    forall d | 0 <= d < |queues|
      ensures t !in queues[d]
    {
      ThreadsUpdate(queues, d, queues[d]);
    }
  }

  /** A thread leaves a queue: it was nowhere else. */
  lemma Dequeued(queues: seq<seq<tid>>, victims: seq<tid>, limbo: set<tid>, cpuOf: map<tid, nat>, me: nat, cur: tid,
                 d: nat, q: seq<tid>, t: tid)
    requires QueuesOk(queues, victims, limbo, cpuOf, me, cur) && d < |queues|
    requires multiset(queues[d]) == multiset(q) + multiset{t}
    ensures Owned(queues[d := q], cpuOf) && t in cpuOf && cpuOf[t] == d
    ensures Threads(queues) == Threads(queues[d := q]) + multiset{t}
    ensures t !in victims && t !in limbo && multiset(limbo + {t}) == multiset(limbo) + multiset{t}
  {
    OwnedLess(queues, d, q, cpuOf, t);
    ThreadsUpdate(queues, d, q);
    hide Owned, Threads;
    assert Everyone(queues, victims, limbo)[t] <= 1;
    assert t in multiset(queues[d]) && t in Threads(queues);
  }

  /** A thread on no queue joins one. */
  lemma Enqueued(queues: seq<seq<tid>>, cpuOf: map<tid, nat>, e: nat, t: tid)
    requires Owned(queues, cpuOf) && e < |queues| && Threads(queues)[t] == 0
    ensures Owned(queues[e := queues[e] + [t]], cpuOf[t := e])
    ensures Threads(queues[e := queues[e] + [t]]) == Threads(queues) + multiset{t}
  {
    NotQueued(queues, t);
    OwnedMore(queues, e, t, cpuOf);
    ThreadsUpdate(queues, e, queues[e] + [t]);
  }

  /** Another cpu takes a thread off its own queue. */
  lemma TakeStep(queues: seq<seq<tid>>, victims: seq<tid>, limbo: set<tid>, cpuOf: map<tid, nat>, me: nat, cur: tid,
                 d: nat, q: seq<tid>, t: tid)
    requires QueuesOk(queues, victims, limbo, cpuOf, me, cur) && d < |queues|
    requires multiset(queues[d]) == multiset(q) + multiset{t}
    ensures QueuesOk(queues[d := q], victims, limbo + {t}, cpuOf, me, cur)
    ensures Everyone(queues[d := q], victims, limbo + {t}) == Everyone(queues, victims, limbo)
  {
    Dequeued(queues, victims, limbo, cpuOf, me, cur, d, q, t);
    hide Owned, Threads, Once, AllOf;
    assert Everyone(queues[d := q], victims, limbo + {t}) == Everyone(queues, victims, limbo);
  }

  /** A thread in limbo is put on a queue. */
  lemma PutStep(queues: seq<seq<tid>>, victims: seq<tid>, limbo: set<tid>, cpuOf: map<tid, nat>, me: nat, cur: tid,
                t: tid, e: nat)
    requires QueuesOk(queues, victims, limbo, cpuOf, me, cur) && t in limbo && e < |queues| && (t != cur || e == me)
    ensures QueuesOk(queues[e := queues[e] + [t]], victims, limbo - {t}, cpuOf[t := e], me, cur)
    ensures Everyone(queues[e := queues[e] + [t]], victims, limbo - {t}) == Everyone(queues, victims, limbo)
  {
    assert Everyone(queues, victims, limbo)[t] <= 1 && t !in victims;
    Enqueued(queues, cpuOf, e, t);
    hide Owned, Threads, Once;
    assert multiset(limbo) == multiset(limbo - {t}) + multiset{t};
    assert Everyone(queues[e := queues[e] + [t]], victims, limbo - {t}) == Everyone(queues, victims, limbo);
  }

  /** The last thread of the own queue becomes the first victim. */
  lemma EvictStep(queues: seq<seq<tid>>, victims: seq<tid>, limbo: set<tid>, cpuOf: map<tid, nat>, me: nat, cur: tid,
                  q: seq<tid>, t: tid)
    requires QueuesOk(queues, victims, limbo, cpuOf, me, cur) && queues[me] == q + [t]
    ensures QueuesOk(queues[me := q], [t] + victims, limbo, cpuOf, me, cur)
    ensures Everyone(queues[me := q], [t] + victims, limbo) == Everyone(queues, victims, limbo)
  {
    Dequeued(queues, victims, limbo, cpuOf, me, cur, me, q, t);
    hide Owned, Threads, Once;
    assert multiset([t] + victims) == multiset{t} + multiset(victims);
    assert Everyone(queues[me := q], [t] + victims, limbo) == Everyone(queues, victims, limbo);
  }

  /** The first victim, which is not the current thread, goes to another cpu; or any goes back. */
  lemma ArriveStep(queues: seq<seq<tid>>, victims: seq<tid>, limbo: set<tid>, cpuOf: map<tid, nat>, me: nat, cur: tid,
                   e: nat)
    requires QueuesOk(queues, victims, limbo, cpuOf, me, cur) && victims != [] && e < |queues|
             && (victims[0] != cur || e == me)
    ensures var t := victims[0];
            && QueuesOk(queues[e := queues[e] + [t]], victims[1..], limbo, cpuOf[t := e], me, cur)
            && Everyone(queues[e := queues[e] + [t]], victims[1..], limbo) == Everyone(queues, victims, limbo)
    ensures victims[0] !in victims[1..]
  {
    Lone(queues, victims, limbo);
    Enqueued(queues, cpuOf, e, victims[0]);
    VictimsStay(victims, cpuOf, me, cur, e);
    hide Owned, Threads, Once, AllOf;
    assert Everyone(queues[e := queues[e] + [victims[0]]], victims[1..], limbo) == Everyone(queues, victims, limbo);
  }

  lemma Lone(queues: seq<seq<tid>>, victims: seq<tid>, limbo: set<tid>)
    requires Once(Everyone(queues, victims, limbo)) && victims != []
    ensures Threads(queues)[victims[0]] == 0 && victims[0] !in victims[1..]
    ensures multiset(victims) == multiset{victims[0]} + multiset(victims[1..])
  {
    hide Threads;
    assert victims == [victims[0]] + victims[1..];
    assert Everyone(queues, victims, limbo)[victims[0]] <= 1;
  }

  lemma VictimsStay(victims: seq<tid>, cpuOf: map<tid, nat>, me: nat, cur: tid, e: nat)
    requires victims != [] && victims[0] !in victims[1..] && AllOf(victims, cpuOf, me) && AllOf([cur], cpuOf, me)
    requires victims[0] != cur || e == me
    ensures AllOf(victims[1..], cpuOf[victims[0] := e], me) && AllOf([cur], cpuOf[victims[0] := e], me)
  {
    assert cur in [cur];
  }

  /** The first victim goes to the end. */
  lemma TurnStep(queues: seq<seq<tid>>, victims: seq<tid>, limbo: set<tid>, cpuOf: map<tid, nat>, me: nat, cur: tid)
    requires QueuesOk(queues, victims, limbo, cpuOf, me, cur) && victims != []
    ensures QueuesOk(queues, victims[1..] + [victims[0]], limbo, cpuOf, me, cur)
    ensures Everyone(queues, victims[1..] + [victims[0]], limbo) == Everyone(queues, victims, limbo)
    ensures victims[0] !in victims[1..]
  {
    Lone(queues, victims, limbo);
    hide Owned, Threads, Once;
    assert multiset(victims[1..] + [victims[0]]) == multiset(victims);
  }

  class RunQueues {
    /** The cpu that runs the migration, and its current thread. */
    const me: nat
    const curthread: tid
    var queues: seq<seq<tid>>
    var victims: seq<tid>
    /** Threads on no run queue, and the t_cpu of every thread. */
    var limbo: set<tid>
    var cpuOf: map<tid, nat>

    constructor (me: nat, curthread: tid, queues: seq<seq<tid>>, limbo: set<tid>, cpuOf: map<tid, nat>)
      requires QueuesOk(queues, [], limbo, cpuOf, me, curthread)
      ensures Valid() && this.me == me && this.curthread == curthread && this.queues == queues && victims == []
    {
      this.me, this.curthread, this.queues, this.limbo, this.cpuOf, victims := me, curthread, queues, limbo, cpuOf, [];
    }

    ghost predicate Valid() reads this {
      QueuesOk(queues, victims, limbo, cpuOf, me, curthread)
    }

    ghost function All(): multiset<tid> reads this {
      Everyone(queues, victims, limbo)
    }

    lemma MeBelow()
      requires Valid()
      ensures me < |queues|
    {
    }

    /** What other cpus do while this one holds no lock. Only this cpu takes threads off its queue, and
        nobody else moves its current thread to another cpu. */
    method Window(ops: seq<Op>)
      requires Valid()
      modifies this`queues, this`limbo, this`cpuOf
      ensures Valid() && All() == old(All()) && me < |queues| == |old(queues)|
      ensures old(queues[me]) <= queues[me]
      ensures ops == [] ==> queues == old(queues) && limbo == old(limbo) && cpuOf == old(cpuOf)
    {
      hide QueuesOk, Everyone;
      MeBelow();
      for i := 0 to |ops|
        invariant Valid() && All() == old(All()) && me < |queues| == |old(queues)| && old(queues[me]) <= queues[me]
        invariant i == 0 ==> queues == old(queues) && limbo == old(limbo) && cpuOf == old(cpuOf)
      {
        Other(ops[i]);
      }
    }

    method Other(op: Op)
      requires Valid()
      modifies this`queues, this`limbo, this`cpuOf
      ensures Valid() && All() == old(All()) && me < |queues| == |old(queues)|
      ensures old(queues[me]) <= queues[me]
    {
      hide QueuesOk, Everyone;
      MeBelow();
      match op
      case Take(d, last) =>
        if d < |queues| && d != me && queues[d] != [] {
          var q := queues[d];
          var t, q' := if last then q[|q| - 1] else q[0], if last then q[..|q| - 1] else q[1..];
          OneLess(q, q', t, last);
          TakeStep(queues, victims, limbo, cpuOf, me, curthread, d, q', t);
          queues, limbo := queues[d := q'], limbo + {t};
        }
      case Put(t, e) =>
        if t in limbo && e < |queues| && (t != curthread || e == me) {
          PutStep(queues, victims, limbo, cpuOf, me, curthread, t, e);
          queues, limbo, cpuOf := queues[e := queues[e] + [t]], limbo - {t}, cpuOf[t := e];
        }
    }

    /** The first loop: lock each run queue in turn and add up the counts. */
    method CountThreads(others: seq<seq<Op>>) returns (myCount: nat, totalCount: nat, k: nat)
      requires Valid()
      modifies this`queues, this`limbo, this`cpuOf
      ensures Valid() && All() == old(All()) && me < |queues| == |old(queues)| && myCount <= |queues[me]|
      ensures others == [] ==> queues == old(queues) && limbo == old(limbo)
      ensures others == [] ==> myCount == |queues[me]| && totalCount == Total(queues)
    {
      hide QueuesOk, Everyone;
      MeBelow();
      myCount, totalCount, k := 0, 0, 0;
      var numcpus := |queues|;
      for i := 0 to numcpus
        invariant Valid() && All() == old(All()) && me < |queues| == |old(queues)| == numcpus && myCount <= |queues[me]|
        invariant others == [] ==> queues == old(queues) && limbo == old(limbo)
        invariant others == [] ==> totalCount == Total(queues[..i]) && (i > me ==> myCount == |queues[me]|)
      {
        Window(Nth(others, k));
        k := k + 1;
        TotalPrefix(queues, i);
        totalCount := totalCount + |queues[i]|;
        if i == me {
          myCount := |queues[me]|;
        }
      }
      assert queues[..numcpus] == queues;
    }

    /** The second loop: the last toSend threads of the own queue become victims, in their order. */
    method EvictVictims(toSend: nat)
      requires Valid() && victims == [] && me < |queues| && toSend <= |queues[me]|
      modifies this`queues, this`victims
      ensures Valid() && All() == old(All()) && me < |queues| == |old(queues)|
      ensures queues == old(queues)[me := old(queues[me])[..|old(queues[me])| - toSend]]
      ensures victims == old(queues[me])[|old(queues[me])| - toSend..]
    {
      hide QueuesOk, Everyone;
      ghost var q0 := queues[me];
      for i := 0 to toSend
        invariant Valid() && All() == old(All()) && me < |queues| == |old(queues)|
        invariant queues[me] == q0[..|q0| - i] && victims == q0[|q0| - i..]
        invariant forall d :: 0 <= d < |queues| && d != me ==> queues[d] == old(queues)[d]
      {
        var q := queues[me];
        assert q != [];
        var t := q[|q| - 1];
        assert q == q[..|q| - 1] + [t];
        EvictStep(queues, victims, limbo, cpuOf, me, curthread, q[..|q| - 1], t);
        queues, victims := queues[me := q[..|q| - 1]], [t] + victims;
      }
    }

    /** toSend counts the victims still to be sent; the current thread, once skipped, is the last of
        the victims and not counted. */
    ghost predicate Sending(toSend: nat, skipped: bool) reads this {
      && |victims| == toSend + (if skipped then 1 else 0)
      && (skipped ==> victims[|victims| - 1] == curthread)
    }

    /** The inner loop for cpu c: fill its queue up to the share. */
    method FillCpu(c: nat, share: nat, toSend0: nat, ghost skipped0: bool) returns (toSend: nat, ghost skipped: bool)
      requires Valid() && c < |queues| && c != me && Sending(toSend0, skipped0)
      modifies this`queues, this`victims, this`cpuOf
      ensures Valid() && All() == old(All()) && c < |queues| == |old(queues)| && Sending(toSend, skipped)
      ensures queues == old(queues)[c := queues[c]] && old(queues[c]) <= queues[c]
      ensures |queues[c]| - |old(queues[c])| == toSend0 - toSend - (if skipped && !skipped0 then 1 else 0)
      ensures skipped0 ==> skipped
      ensures toSend == 0 || |queues[c]| >= share
      ensures |queues[c]| <= share || queues[c] == old(queues[c])
      ensures curthread in victims <==> curthread in old(victims)
    {
      hide QueuesOk, Everyone;
      toSend, skipped := toSend0, skipped0;
      while |queues[c]| < share && toSend > 0
        invariant Valid() && All() == old(All()) && c < |queues| == |old(queues)| && Sending(toSend, skipped)
        invariant queues == old(queues)[c := queues[c]] && old(queues[c]) <= queues[c]
        invariant |queues[c]| - |old(queues[c])| == toSend0 - toSend - (if skipped && !skipped0 then 1 else 0)
        invariant skipped0 ==> skipped
        invariant |queues[c]| <= share || queues[c] == old(queues[c])
        invariant curthread in victims <==> curthread in old(victims)
        decreases toSend
      {
        assert victims != [];
        var t := victims[0];
        NoVictimTwice();
        assert victims == [t] + victims[1..];
        if t == curthread {
          assert !skipped;
          TurnStep(queues, victims, limbo, cpuOf, me, curthread);
          victims := victims[1..] + [t];
          toSend, skipped := toSend - 1, true;
        } else {
          ArriveStep(queues, victims, limbo, cpuOf, me, curthread, c);
          cpuOf := cpuOf[t := c];
          queues := queues[c := queues[c] + [t]];
          victims := victims[1..];
          toSend := toSend - 1;
        }
      }
    }

    lemma NoVictimTwice()
      requires Valid() && victims != []
      ensures victims[0] !in victims[1..]
    {
      Lone(queues, victims, limbo);
    }

    /** The last loop: what is left goes back to the own queue. */
    method PutBack()
      requires Valid() && me < |queues|
      modifies this`queues, this`victims, this`cpuOf
      ensures Valid() && All() == old(All()) && victims == []
      ensures queues == old(queues)[me := old(queues[me]) + old(victims)]
    {
      hide QueuesOk, Everyone;
      ghost var v0, q0 := victims, queues;
      ghost var i := 0;
      while victims != []
        invariant Valid() && All() == old(All()) && i <= |v0| && victims == v0[i..]
        invariant me < |queues| == |q0| && queues[me] == q0[me] + v0[..i]
        invariant forall d :: 0 <= d < |queues| && d != me ==> queues[d] == q0[d]
        decreases |victims|
      {
        var t := victims[0];
        ArriveStep(queues, victims, limbo, cpuOf, me, curthread, me);
        VictimIsMine();
        assert v0[..i + 1] == v0[..i] + [t];
        queues := queues[me := queues[me] + [t]];
        victims := victims[1..];
        i := i + 1;
      }
      assert v0[..i] == v0;
    }

    lemma VictimIsMine()
      requires Valid() && victims != []
      ensures cpuOf[victims[0] := me] == cpuOf
    {
      assert victims[0] in victims;
    }

    /** The share that the counts give each cpu. */
    ghost function Share(queues: seq<seq<tid>>): nat
      requires queues != []
    {
      DivRoundUp(Total(queues), |queues|)
    }

    /** What the migration does when nobody else touches the queues: nothing if the own queue is below
        its share; otherwise the own queue keeps its first `share' threads, plus the current thread if
        that was among the rest, and the rest go to cpus below the share, none of which exceeds it. */
    ghost predicate Balanced(queues0: seq<seq<tid>>) reads this {
      && me < |queues0| == |queues|
      && var share, mine := Share(queues0), queues0[me];
         if |mine| < share then queues == queues0
         else
           && queues[me] == mine[..share] + (if curthread in mine[share..] then [curthread] else [])
           && forall c :: 0 <= c < |queues| && c != me ==>
                queues0[c] <= queues[c] && (|queues[c]| <= share || queues[c] == queues0[c])
    }

    /** The loop over the other cpus, and the return of the victims left over. */
    method Place(others: seq<seq<Op>>, k0: nat, share: nat, toSend0: nat)
      requires Valid() && me < |queues| && Sending(toSend0, false)
      modifies this`queues, this`victims, this`cpuOf, this`limbo
      ensures Valid() && All() == old(All()) && victims == [] && me < |queues| == |old(queues)|
      ensures others == [] && Room(old(queues), me, share, 0) >= toSend0 ==>
                limbo == old(limbo) && Placed(old(queues), old(victims), share)
    {
      hide QueuesOk, Everyone, Room;
      ghost var queues0, victims0, quiet := queues, victims, others == [] && Room(queues, me, share, 0) >= toSend0;
      var numcpus, i, k, toSend := |queues|, 0, k0, toSend0;
      ghost var skipped := false;
      while i < numcpus && toSend > 0
        invariant Valid() && All() == old(All()) && me < |queues| == numcpus && i <= numcpus && Sending(toSend, skipped)
        invariant curthread in victims <==> curthread in victims0
        invariant quiet ==> limbo == old(limbo) && Room(queues, me, share, i) >= toSend
        invariant quiet ==> queues[me] == queues0[me] && forall c :: 0 <= c < numcpus && c != me ==>
                              queues0[c] <= queues[c] && (|queues[c]| <= share || queues[c] == queues0[c])
        decreases numcpus - i
      {
        ghost var queues1, toSend1 := queues, toSend;
        if i != me {
          Window(Nth(others, k));
          ghost var queues2 := queues;
          toSend, skipped := FillCpu(i, share, toSend, skipped);
          k := k + 1;
          if quiet {
            RoomSame(queues1, queues, me, share, i + 1);
          }
        }
        RoomStep(queues1, me, share, i);
        i := i + 1;
      }
      if quiet {
        NoRoom(queues, me, share, i);
      }
      ghost var queues3, victims3 := queues, victims;
      if victims != [] {
        Window(Nth(others, k));
        PutBack();
      }
      if quiet {
        assert skipped ==> victims3 == [curthread];
        assert queues[me] == queues3[me] + victims3;
      }
    }

    /** The victims are spread over the cpus below the share, and the current thread is back. */
    ghost predicate Placed(queues0: seq<seq<tid>>, victims0: seq<tid>, share: nat) reads this {
      && me < |queues0| == |queues|
      && queues[me] == queues0[me] + (if curthread in victims0 then [curthread] else [])
      && forall c :: 0 <= c < |queues| && c != me ==>
           queues0[c] <= queues[c] && (|queues[c]| <= share || queues[c] == queues0[c])
    }

    /** thread_consider_migration, with what other cpus do in each window between its critical
        sections. Whatever they do, no thread is lost or doubled, none is popped off an empty list, t_cpu
        stays right, the current thread stays, and no victim is left over. */
    method ConsiderMigration(others: seq<seq<Op>>)
      requires Valid() && victims == []
      modifies this
      ensures Valid() && All() == old(All()) && victims == [] && |queues| == |old(queues)|
      ensures others == [] ==> Balanced(old(queues)) && limbo == old(limbo)
    {
      hide QueuesOk, Everyone, Total, Room, DivRoundUp;
      MeBelow();
      ghost var queues0 := queues;
      var numcpus := |queues|;
      var myCount, totalCount, k := CountThreads(others);
      var oneShare := DivRoundUp(totalCount, numcpus);
      if myCount < oneShare {
        return;
      }
      var toSend := myCount - oneShare;
      Window(Nth(others, k));
      EvictVictims(toSend);
      if others == [] {
        Fits(queues0, queues, me, oneShare);
      }
      Place(others, k + 1, oneShare, toSend);
    }
  }

  lemma RoomStep(queues: seq<seq<tid>>, me: nat, share: nat, i: nat)
    requires i < |queues|
    ensures Room(queues, me, share, i)
         == (if i == me || |queues[i]| >= share then 0 else share - |queues[i]|) + Room(queues, me, share, i + 1)
  {
  }

  lemma NoRoom(queues: seq<seq<tid>>, me: nat, share: nat, i: nat)
    ensures i >= |queues| ==> Room(queues, me, share, i) == 0
  {
  }

  lemma {:induction false} RoomWithoutMe(queues: seq<seq<tid>>, queues': seq<seq<tid>>, me: nat, share: nat, i: nat)
    requires |queues| == |queues'| && forall d :: i <= d < |queues| && d != me ==> queues'[d] == queues[d]
    ensures Room(queues', me, share, i) == Room(queues, me, share, i)
    decreases |queues| - i
  {
    if i < |queues| {
      RoomWithoutMe(queues, queues', me, share, i + 1);
    }
  }

  /** With the share rounded up, the other cpus have room for all that is sent. */
  lemma Fits(queues0: seq<seq<tid>>, queues: seq<seq<tid>>, me: nat, share: nat)
    requires me < |queues0| == |queues| && share == DivRoundUp(Total(queues0), |queues0|) && share <= |queues0[me]|
    requires forall d :: 0 <= d < |queues| && d != me ==> queues[d] == queues0[d]
    ensures Room(queues, me, share, 0) >= |queues0[me]| - share
  {
    RoomEnough(queues0, me, share, 0);
    RoomWithoutMe(queues0, queues, me, share, 0);
    RoundsUp(Total(queues0), |queues0|);
    assert queues0[0..] == queues0;
    Commutes(|queues0|, share);
  }

  lemma Commutes(a: nat, b: nat)
    ensures (a - 0) * b == b * a
  {
  }

  /** What happens in the k-th window. */
  function Nth(others: seq<seq<Op>>, k: nat): seq<Op> {
    if k < |others| then others[k] else []
  }

  lemma OneLess(q: seq<tid>, q': seq<tid>, t: tid, last: bool)
    requires q != [] && q' == (if last then q[..|q| - 1] else q[1..]) && t == (if last then q[|q| - 1] else q[0])
    ensures multiset(q) == multiset(q') + multiset{t}
  {
    if last {
      assert q == q' + [t];
    } else {
      assert q == [t] + q';
    }
  }
}
