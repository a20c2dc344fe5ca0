/** The heap with its callers: any number of threads inside kmalloc and kfree at once, for requests of any
    size, alloc_kpages as the environment, and what holds after every sequence of steps they can take. */
module KMalloc {
  import opened Words
  import opened Freelist
  import opened PageRefs
  import opened HeapInvariant
  import opened HeapWrites
  import opened KHeap

  /** Where a thread is between two of its steps: what it will do next, the descriptor whose bit it
      set, the page it got for blocks, and the page it got for descriptors (0: it got none). */
  datatype Pending =
    | WantsPage(sz: nat, b: blocktype)
    | HasPage(sz: nat, b: blocktype, page: nat)
    | WantsRoot(sz: nat, b: blocktype, p: nat, page: nat)
    | HasRoot(sz: nat, b: blocktype, p: nat, page: nat, va: nat)
    | GaveSurplus(sz: nat, b: blocktype, p: nat, page: nat)
    | GivesBack(page: nat)
    | GivesRun(run: nat)   // a large block, back to alloc_kpages

  /** What a step gives its thread: nothing yet, a block, NULL, the end of a kfree, or a panic; or the
      thread was not where it could take the step. */
  datatype Outcome = Waiting | Gave(ptr: nat) | OutOfMemory | Done | Panicked | Skipped

  /** A kmalloc of half a page or more is one step: the heap has no part in it. */
  datatype Event =
    | Malloc(t: nat, sz: word)
    | Large(t: nat, sz: word, va: nat)
    | Pages(t: nat, va: nat)
    | Relock(t: nat)
    | Free(t: nat, ptr: nat)
    | FreePages(t: nat)

  function Claim(s: Pending): set<nat> {
    if s.WantsRoot? || s.HasRoot? || s.GaveSurplus? then {s.p} else {}
  }

  function Owns(s: Pending): set<nat> {
    if s.WantsPage? || s.GivesRun? then {} else if s.HasRoot? && s.va != 0 then {s.page, s.va} else {s.page}
  }

  ghost predicate Settled(s: Pending, rootPage: seq<nat>) {
    && |rootPage| == NROOTS
    && (!s.GivesBack? && !s.GivesRun? ==> FitsBest(s.sz, s.b))
    && (s.HasRoot? ==> s.va != s.page)
    && (s.GaveSurplus? ==> s.p < TOTAL && rootPage[s.p / PER_PAGE] != 0)
  }

  function ClaimOf(pending: map<nat, Pending>, t: nat): set<nat> {
    if t in pending then Claim(pending[t]) else {}
  }

  function OwnsOf(pending: map<nat, Pending>, t: nat): set<nat> {
    if t in pending then Owns(pending[t]) else {}
  }

  /** No two threads hold the same descriptor or page, and what threads hold is all that is held. */
  ghost predicate ThreadsOk(pending: map<nat, Pending>, claimed: set<nat>, held: set<nat>, rootPage: seq<nat>) {
    && (forall t :: t in pending ==> Settled(pending[t], rootPage))
    && (forall t :: t in pending ==> Claim(pending[t]) <= claimed && Owns(pending[t]) <= held)
    && (forall t, u :: t in pending && u in pending && t != u ==>
          Claim(pending[t]) !! Claim(pending[u]) && Owns(pending[t]) !! Owns(pending[u]))
    && (forall p :: p in claimed ==> exists t :: t in pending && p in Claim(pending[t]))
    && (forall g :: g in held ==> exists t :: t in pending && g in Owns(pending[t]))
  }

  /** Pages of descriptors stay. */
  ghost predicate Grows(rootPage: seq<nat>, rootPage': seq<nat>) {
    && |rootPage'| == |rootPage|
    && forall r :: 0 <= r < |rootPage| && rootPage[r] != 0 ==> rootPage'[r] == rootPage[r]
  }

  /** A thread moves on: what it had is what it has now, plus things nobody held, minus things let go. */
  lemma Moves(pending: map<nat, Pending>, claimed: set<nat>, held: set<nat>, rootPage: seq<nat>,
              t: nat, s: Pending, claimed': set<nat>, held': set<nat>, rootPage': seq<nat>)
    requires ThreadsOk(pending, claimed, held, rootPage) && Grows(rootPage, rootPage') && Settled(s, rootPage')
    requires claimed' == claimed - ClaimOf(pending, t) + Claim(s) && Claim(s) - ClaimOf(pending, t) !! claimed
    requires held' == held - OwnsOf(pending, t) + Owns(s) && Owns(s) - OwnsOf(pending, t) !! held
    ensures ThreadsOk(pending[t := s], claimed', held', rootPage')
  {
    hide Claim, Owns;
    var pending' := pending[t := s];
    forall u | u in pending' && u != t
      ensures Settled(pending'[u], rootPage') && Claim(pending'[u]) !! Claim(s) && Owns(pending'[u]) !! Owns(s)
      ensures Claim(pending'[u]) <= claimed' && Owns(pending'[u]) <= held'
    {
    }
    forall p | p in claimed'
      ensures exists u :: u in pending' && p in Claim(pending'[u])
    {
      if p in Claim(s) {
        assert t in pending' && p in Claim(pending'[t]);
      } else {
        var u :| u in pending && p in Claim(pending[u]);
        assert p in Claim(pending'[u]);
      }
    }
    forall g | g in held'
      ensures exists u :: u in pending' && g in Owns(pending'[u])
    {
      if g in Owns(s) {
        assert t in pending' && g in Owns(pending'[t]);
      } else {
        var u :| u in pending && g in Owns(pending[u]);
        assert g in Owns(pending'[u]);
      }
    }
  }

  /** A thread leaves the allocator. */
  lemma Leaves(pending: map<nat, Pending>, claimed: set<nat>, held: set<nat>, rootPage: seq<nat>,
               t: nat, claimed': set<nat>, held': set<nat>, rootPage': seq<nat>)
    requires ThreadsOk(pending, claimed, held, rootPage) && Grows(rootPage, rootPage')
    requires claimed' == claimed - ClaimOf(pending, t) && held' == held - OwnsOf(pending, t)
    ensures ThreadsOk(pending - {t}, claimed', held', rootPage')
  {
    hide Claim, Owns;
    var pending' := pending - {t};
    forall p | p in claimed'
      ensures exists u :: u in pending' && p in Claim(pending'[u])
    {
      var u :| u in pending && p in Claim(pending[u]);
      assert u in pending' && p in Claim(pending'[u]);
    }
    forall g | g in held'
      ensures exists u :: u in pending' && g in Owns(pending'[u])
    {
      var u :| u in pending && g in Owns(pending[u]);
      assert u in pending' && g in Owns(pending'[u]);
    }
  }

  /** The pages of descriptors. */
  ghost function Roots(rootPage: seq<nat>): set<nat> {
    set r | 0 <= r < |rootPage| && rootPage[r] != 0 :: rootPage[r]
  }

  lemma RootsGain(rootPage: seq<nat>, r: nat, va: nat)
    requires r < |rootPage| && rootPage[r] == 0 && va != 0
    ensures Roots(rootPage[r := va]) == Roots(rootPage) + {va} && Grows(rootPage, rootPage[r := va])
  {
    var rootPage' := rootPage[r := va];
    forall a
      ensures a in Roots(rootPage') <==> a in Roots(rootPage) || a == va
    {
      if a in Roots(rootPage) {
        var i :| 0 <= i < |rootPage| && rootPage[i] != 0 && rootPage[i] == a;
        assert rootPage'[i] == a;
      }
      if a == va {
        assert rootPage'[r] == a;
      }
    }
  }

  // ----- large blocks

  /** The number of whole pages kmalloc asks alloc_kpages for. */
  function PagesFor(sz: word): word {
    Div32(Sub32(Add32(sz, PAGE_SIZE), 1), PAGE_SIZE)
  }

  /** The n pages from u and the m pages from v have none in common. */
  predicate NoneShared(u: nat, n: nat, v: nat, m: nat) {
    u + n * PAGE_SIZE <= v || v + m * PAGE_SIZE <= u
  }

  /** The page is in no run of pages that alloc_kpages has given out for a large request. */
  predicate Clear(runs: map<nat, nat>, page: nat) {
    forall u :: u in runs ==> NoneShared(page, 1, u, runs[u])
  }

  /** Each run has pages of its own, that the heap does not have, and is with one caller, or with one thread
      that is giving it back. */
  ghost predicate LargeOk(taken: set<nat>, runs: map<nat, nat>, large: set<nat>, pending: map<nat, Pending>) {
    && large <= runs.Keys
    && (forall u :: u in runs ==>
          0 < u && u % PAGE_SIZE == 0 && 0 < runs[u] && u + runs[u] * PAGE_SIZE <= 0x1_0000_0000)
    && (forall u, v :: u in runs && v in runs && u != v ==> NoneShared(u, runs[u], v, runs[v]))
    && (forall g :: g in taken ==> Clear(runs, g))
    && (forall t :: t in pending && pending[t].GivesRun? ==> pending[t].run in runs && pending[t].run !in large)
    && (forall t, u :: t in pending && u in pending && t != u && pending[t].GivesRun? && pending[u].GivesRun? ==>
          pending[t].run != pending[u].run)
    && (forall u :: u in runs && u !in large ==> exists t :: t in pending && pending[t] == GivesRun(u))
  }

  /** No other thread's waiting changes. */
  ghost predicate OnlyThread(pending: map<nat, Pending>, pending': map<nat, Pending>, t: nat) {
    forall u :: u != t ==> (u in pending' <==> u in pending) && (u in pending ==> pending'[u] == pending[u])
  }

  lemma OnlyOne(pending: map<nat, Pending>, t: nat, s: Pending)
    ensures OnlyThread(pending, pending, t)
    ensures OnlyThread(pending, pending[t := s], t)
    ensures OnlyThread(pending, pending - {t}, t)
  {
  }

  /** A step that has nothing to do with large blocks. */
  lemma LargeSame(taken: set<nat>, runs: map<nat, nat>, large: set<nat>, pending: map<nat, Pending>,
                  taken': set<nat>, pending': map<nat, Pending>, t: nat, added: set<nat>)
    requires LargeOk(taken, runs, large, pending)
    requires taken' <= taken + added && forall g :: g in added ==> Clear(runs, g)
    requires OnlyThread(pending, pending', t)
    requires (t in pending ==> !pending[t].GivesRun?) && (t in pending' ==> !pending'[t].GivesRun?)
    ensures LargeOk(taken', runs, large, pending')
  {
    hide NoneShared, Clear;
    forall u | u in runs && u !in large
      ensures exists t :: t in pending' && pending'[t] == GivesRun(u)
    {
      var w :| w in pending && pending[w] == GivesRun(u);
      assert w in pending' && pending'[w] == GivesRun(u);
    }
  }

  /** alloc_kpages gives no page (va 0), or one that nobody has. */
  predicate Fresh(va: nat, taken: set<nat>, runs: map<nat, nat>) {
    va == 0 || (va % PAGE_SIZE == 0 && va + PAGE_SIZE <= 0x1_0000_0000 && va !in taken && Clear(runs, va))
  }

  /** Asked for n pages: none, or n pages that nobody has. Asked for no page it may return any page address. */
  predicate FreshRun(va: nat, n: nat, taken: set<nat>, runs: map<nat, nat>) {
    || va == 0
    || (&& va % PAGE_SIZE == 0 && va + n * PAGE_SIZE <= 0x1_0000_0000
        && (n > 0 ==> (forall g :: g in taken ==> NoneShared(va, n, g, 1))
                      && forall u :: u in runs ==> NoneShared(va, n, u, runs[u])))
  }

  /** The steps a thread can take where it is, as its callers and alloc_kpages keep their promises. */
  predicate Enabled(v: Shared, e: Event) {
    match e
    case Malloc(t, sz) => t !in v.pending && sz < 2048
    case Large(t, sz, va) => t !in v.pending && sz >= 2048 && FreshRun(va, PagesFor(sz), v.taken, v.runs)
    case Pages(t, va) =>
      t in v.pending && (v.pending[t].WantsPage? || v.pending[t].WantsRoot?) && Fresh(va, v.taken, v.runs)
    case Relock(t) => t in v.pending && (v.pending[t].HasPage? || v.pending[t].HasRoot? || v.pending[t].GaveSurplus?)
    case Free(t, ptr) => t !in v.pending && (ptr in v.given || ptr in v.large)
    case FreePages(t) => t in v.pending && (v.pending[t].GivesBack? || v.pending[t].GivesRun?)
  }

  /** What every thread is waiting for; the pages the heap has got from alloc_kpages and not given back; the
      small blocks callers have; the runs of pages out for large requests, and those of them callers have. */
  datatype Shared = Shared(pending: map<nat, Pending>, taken: set<nat>, given: set<nat>, runs: map<nat, nat>,
                           large: set<nat>)

  /** All that, where the heap's pages and descriptors are, how many descriptors of each root are in use, the
      block types of which no block is free, and the blocks that kfree would panic on. */
  datatype View = View(s: Shared, claimed: set<nat>, held: set<nat>, listed: set<nat>, rootPage: seq<nat>,
                       numinuse: seq<nat>, full: set<nat>, trapped: set<nat>)

  /** The next descriptor comes from root r, the first that is not full. */
  ghost predicate NextRoot(numinuse: seq<nat>, r: nat) {
    r < |numinuse| && numinuse[r] < PER_PAGE && forall i :: 0 <= i < r ==> numinuse[i] == PER_PAGE
  }

  /** There is a descriptor, and that root has its page. */
  ghost predicate DescriptorAtHand(numinuse: seq<nat>, rootPage: seq<nat>) {
    exists r :: 0 <= r < |rootPage| && NextRoot(numinuse, r) && rootPage[r] != 0
  }

  /** The page of descriptors that descriptor p is in, or 0. */
  function PageOfRoot(rootPage: seq<nat>, p: nat): nat {
    if PER_PAGE > 0 && p / PER_PAGE < |rootPage| then rootPage[p / PER_PAGE] else 0
  }

  ghost predicate NeedsRoot(numinuse: seq<nat>, rootPage: seq<nat>, p: nat) {
    PER_PAGE > 0 && NextRoot(numinuse, p / PER_PAGE) && PageOfRoot(rootPage, p) == 0
  }

  /** What comes of having the lock again: a block exactly when there is a descriptor, NULL exactly when there is
      none left, or when no page of descriptors could be had and none is there; and another try otherwise. */
  ghost predicate Answers(w: View, s: Pending, o: Outcome, s': Pending) {
    match s
    case HasPage(sz, b, page) =>
      && (o.Gave? <==> DescriptorAtHand(w.numinuse, w.rootPage))
      && (!o.Gave? ==> (s'.GivesBack? <==> RootsFull(w.numinuse)))
      && (!o.Gave? && s'.WantsRoot? ==> NeedsRoot(w.numinuse, w.rootPage, s'.p))
    case HasRoot(sz, b, p, page, va) =>
      && (o.Gave? <==> ((va == 0) != (PageOfRoot(w.rootPage, p) == 0)))
      && (!o.Gave? ==> (s'.GivesBack? <==> va == 0))
    case _ => o.Gave?
  }

  // ----- descriptors

  /** No descriptor changes hands. */
  predicate SamePool(w: View, w': View) {
    w'.numinuse == w.numinuse && w'.claimed == w.claimed && w'.listed == w.listed && w'.rootPage == w.rootPage
  }

  /** A page of descriptors, if there is a new one, is its root's. */
  function WithRootPage(rootPage: seq<nat>, p: nat, va: nat): seq<nat> {
    if va != 0 && PER_PAGE > 0 && p / PER_PAGE < |rootPage| then rootPage[p / PER_PAGE := va] else rootPage
  }

  predicate JoinsLists(w: View, w': View, page: nat) {
    page !in w.listed && w'.listed == w.listed + {page}
  }

  /** What becomes of descriptors when a thread with state s has the lock again and goes on to s'. */
  ghost predicate RelockPool(w: View, s: Pending, o: Outcome, w': View, s': Pending) {
    match s
    case HasPage(sz, b, page) =>
      if RootsFull(w.numinuse) then SamePool(w, w')
      else
        && (exists r: nat :: FirstRoot(w.numinuse, w'.numinuse, r)) && w'.rootPage == w.rootPage
        && if o.Gave? then w'.claimed == w.claimed && JoinsLists(w, w', page)
           else s'.WantsRoot? && s'.p !in w.claimed && w'.claimed == w.claimed + {s'.p} && w'.listed == w.listed
    case HasRoot(sz, b, p, page, va) =>
      if o.Gave? || s'.GivesBack? then
        && w'.numinuse == w.numinuse && p in w.claimed && w'.claimed == w.claimed - {p}
        && (if o.Gave? then JoinsLists(w, w', page) else w'.listed == w.listed)
        && w'.rootPage == if o.Gave? then WithRootPage(w.rootPage, p, va) else w.rootPage
      else SamePool(w, w')
    case GaveSurplus(sz, b, p, page) =>
      && w'.numinuse == w.numinuse && p in w.claimed && w'.claimed == w.claimed - {p} && JoinsLists(w, w', page)
      && w'.rootPage == w.rootPage
    case _ => false
  }

  /** A descriptor is taken for a page, stays with the thread or goes on the lists with the page, and is given
      back with it. */
  ghost predicate PoolMoves(w: View, e: Event, o: Outcome, w': View) {
    match e
    case Relock(t) =>
      && t in w.s.pending
      && RelockPool(w, w.s.pending[t], o, w', if t in w'.s.pending then w'.s.pending[t] else w.s.pending[t])
    case Free(t, ptr) =>
      if o == Waiting && ptr !in w.s.large then
        && w'.claimed == w.claimed && w'.rootPage == w.rootPage
        && (exists p: nat :: OneLess(w.numinuse, w'.numinuse, p))
        && exists g :: g in w.listed && w'.listed == w.listed - {g}
      else SamePool(w, w')
    case _ => SamePool(w, w')
  }

  /** The thread gives up for want of a page of descriptors, and leaves its bit set. */
  predicate Leaks(w: View, e: Event, o: Outcome, w': View) {
    && e.Relock? && !o.Gave? && e.t in w.s.pending && w.s.pending[e.t].HasRoot?
    && e.t in w'.s.pending && w'.s.pending[e.t].GivesBack?
  }

  function Sum(s: seq<nat>): nat {
    if s == [] then 0 else Sum(s[..|s| - 1]) + s[|s| - 1]
  }

  lemma {:induction false} SumUpdate(s: seq<nat>, r: nat, x: nat)
    requires r < |s|
    ensures Sum(s[r := x]) == Sum(s) - s[r] + x
  {
    var n := |s| - 1;
    if r < n {
      SumUpdate(s[..n], r, x);
      assert s[r := x][..n] == s[..n][r := x];
    } else {
      assert s[r := x][..n] == s[..n];
    }
  }

  /** The descriptors in use that are neither with a thread nor those of a listed page. */
  function Lost(w: View): int {
    Sum(w.numinuse) - |w.claimed| - |w.listed|
  }

  lemma OneMoreInUse(numinuse0: seq<nat>, numinuse: seq<nat>, r: nat)
    requires FirstRoot(numinuse0, numinuse, r)
    ensures Sum(numinuse) == Sum(numinuse0) + 1
  {
    SumUpdate(numinuse0, r, numinuse0[r] + 1);
  }

  lemma OneLessInUse(numinuse0: seq<nat>, numinuse: seq<nat>, p: nat)
    requires OneLess(numinuse0, numinuse, p)
    ensures Sum(numinuse) == Sum(numinuse0) - 1
  {
    SumUpdate(numinuse0, p / PER_PAGE, numinuse0[p / PER_PAGE] - 1);
  }

  lemma RelockConserves(w: View, s: Pending, o: Outcome, w': View, s': Pending)
    requires RelockPool(w, s, o, w', s')
    ensures Lost(w') == Lost(w) + if s.HasRoot? && !o.Gave? && s'.GivesBack? then 1 else 0
  {
    hide RootsFull, FirstRoot, Sum;
    if s.HasPage? && !RootsFull(w.numinuse) {
      var r: nat :| FirstRoot(w.numinuse, w'.numinuse, r);
      OneMoreInUse(w.numinuse, w'.numinuse, r);
    }
  }

  /** Descriptors are conserved, but for the one a step leaks. */
  lemma DescriptorsConserved(w: View, e: Event, o: Outcome, w': View)
    requires PoolMoves(w, e, o, w')
    ensures Lost(w') == Lost(w) + if Leaks(w, e, o, w') then 1 else 0
  {
    hide RelockPool, OneLess, Sum;
    if e.Relock? {
      RelockConserves(w, w.s.pending[e.t], o, w', if e.t in w'.s.pending then w'.s.pending[e.t] else w.s.pending[e.t]);
    } else if e.Free? && o == Waiting && e.ptr !in w.s.large {
      var p: nat :| OneLess(w.numinuse, w'.numinuse, p);
      OneLessInUse(w.numinuse, w'.numinuse, p);
    }
  }

  /** The descriptors leaked in the first n steps of a run. */
  ghost function LeakedIn(views: seq<View>, events: seq<Event>, outcomes: seq<Outcome>, n: nat): nat
    requires n < |views| && n <= |events| && n <= |outcomes|
  {
    if n == 0 then 0
    else LeakedIn(views, events, outcomes, n - 1)
         + if Enabled(views[n - 1].s, events[n - 1])
              && Leaks(views[n - 1], events[n - 1], outcomes[n - 1], views[n]) then 1 else 0
  }

  /** In every state of a run that starts with no descriptor lost, a descriptor in use is with a thread, or that
      of a listed page, or one of those leaked so far. */
  lemma {:induction false} LostIsLeaked(views: seq<View>, events: seq<Event>, outcomes: seq<Outcome>, n: nat)
    requires n < |views| && n <= |events| && n <= |outcomes| && Lost(views[0]) == 0
    requires forall i :: 0 <= i < n ==> Moved(views[i], events[i], outcomes[i], views[i + 1])
    ensures Sum(views[n].numinuse)
            == |views[n].claimed| + |views[n].listed| + LeakedIn(views, events, outcomes, n)
  {
    hide StepDoes, PoolMoves, Leaks, Enabled, Sum;
    if n > 0 {
      LostIsLeaked(views, events, outcomes, n - 1);
      assert Moved(views[n - 1], events[n - 1], outcomes[n - 1], views[n]);
      if Enabled(views[n - 1].s, events[n - 1]) {
        DescriptorsConserved(views[n - 1], events[n - 1], outcomes[n - 1], views[n]);
      }
    }
  }

  lemma NoneInUse(numinuse: seq<nat>)
    requires forall r :: 0 <= r < |numinuse| ==> numinuse[r] == 0
    ensures Sum(numinuse) == 0
  {
  }

  lemma {:induction false} AtMostAll(numinuse: seq<nat>)
    requires forall r :: 0 <= r < |numinuse| ==> numinuse[r] <= PER_PAGE
    ensures Sum(numinuse) <= |numinuse| * PER_PAGE
    ensures Sum(numinuse) == |numinuse| * PER_PAGE <==> RootsFull(numinuse)
  {
    if numinuse != [] {
      AtMostAll(numinuse[..|numinuse| - 1]);
    }
  }

  /** No descriptor is left exactly when the pages on the lists, the threads and the leaks have them all. */
  lemma NoneLeft(w: View)
    requires Conserved(w)
    ensures RootsFull(w.numinuse) <==> |w.claimed| + |w.listed| + Lost(w) == TOTAL
  {
    hide ThreadsOk, LargeOk, RootsFull;
    AtMostAll(w.numinuse);
  }

  /** After AddPage. */
  lemma AddPageDecides(numinuse0: seq<nat>, numinuse: seq<nat>, rootPage: seq<nat>, a: Allocation)
    requires a.Block? || a.NeedRootPage? || a.NoPageRef?
    requires a.NoPageRef? <==> RootsFull(numinuse0)
    requires a.Block? ==> RootHadPage(numinuse0, numinuse, rootPage)
    requires a.NeedRootPage? ==> a.pr / PER_PAGE < |rootPage| && rootPage[a.pr / PER_PAGE] == 0
    requires a.NeedRootPage? ==> FirstRoot(numinuse0, numinuse, a.pr / PER_PAGE)
    ensures a.Block? <==> DescriptorAtHand(numinuse0, rootPage)
    ensures a.NeedRootPage? ==> NeedsRoot(numinuse0, rootPage, a.pr)
  {
    if a.Block? {
      var r :| 0 <= r < |rootPage| && FirstRoot(numinuse0, numinuse, r) && rootPage[r] != 0;
      assert NextRoot(numinuse0, r);
    }
  }

  lemma PageAnswers(w: View, s: Pending, o: Outcome, s': Pending)
    requires s.HasPage? && (o.Gave? <==> DescriptorAtHand(w.numinuse, w.rootPage))
    requires !o.Gave? ==> (s'.GivesBack? <==> RootsFull(w.numinuse))
    requires !o.Gave? && s'.WantsRoot? ==> NeedsRoot(w.numinuse, w.rootPage, s'.p)
    ensures Answers(w, s, o, s')
  {
  }

  lemma PagePool(w: View, s: Pending, o: Outcome, w': View, s': Pending, a: Allocation, numinuse0: seq<nat>)
    requires s.HasPage? && numinuse0 == w.numinuse && w'.rootPage == w.rootPage
    requires (o.Gave? <==> a.Block?) && s.page !in w.listed
    requires a.Block? || a.NeedRootPage? || a.NoPageRef?
    requires a.NoPageRef? <==> RootsFull(w.numinuse)
    requires a.NoPageRef? ==> SamePool(w, w')
    requires a.Block? ==> w'.claimed == w.claimed && w'.listed == w.listed + {s.page}
    requires a.Block? ==> RootHadPage(w.numinuse, w'.numinuse, w'.rootPage)
    requires a.NeedRootPage? ==> FirstRoot(w.numinuse, w'.numinuse, a.pr / PER_PAGE) && w'.listed == w.listed
    requires a.NeedRootPage? ==> s'.WantsRoot? && s'.p == a.pr && a.pr !in w.claimed && w'.claimed == w.claimed + {a.pr}
    ensures RelockPool(w, s, o, w', s')
  {
    hide RootsFull, FirstRoot;
    if a.Block? {
      var r :| 0 <= r < |w'.rootPage| && FirstRoot(w.numinuse, w'.numinuse, r) && w'.rootPage[r] != 0;
    }
  }

  lemma RootPool(w: View, s: Pending, o: Outcome, w': View, s': Pending, a: Allocation)
    requires s.HasRoot? && w'.numinuse == w.numinuse && s.p in w.claimed && s.page !in w.listed
    requires a.Block? || a.NoPageRef? || a.SurplusRootPage?
    requires (o.Gave? <==> a.Block?) && (!o.Gave? ==> (s'.GivesBack? <==> a.NoPageRef?))
    requires w'.listed == if a.Block? then w.listed + {s.page} else w.listed
    requires w'.claimed == if a.SurplusRootPage? then w.claimed else w.claimed - {s.p}
    requires w'.rootPage == if a.Block? then WithRootPage(w.rootPage, s.p, s.va) else w.rootPage
    ensures RelockPool(w, s, o, w', s')
  {
  }

  lemma SurplusPool(w: View, s: Pending, o: Outcome, w': View, s': Pending)
    requires s.GaveSurplus? && w'.numinuse == w.numinuse && w'.rootPage == w.rootPage
    requires s.p in w.claimed && s.page !in w.listed
    requires w'.listed == w.listed + {s.page} && w'.claimed == w.claimed - {s.p}
    ensures RelockPool(w, s, o, w', s')
  {
  }

  lemma FreePool(w: View, t: nat, ptr: nat, o: Outcome, w': View, p: nat, page: nat)
    requires w'.claimed == w.claimed && ptr !in w.s.large && w'.rootPage == w.rootPage
    requires o == Waiting ==> OneLess(w.numinuse, w'.numinuse, p) && page in w.listed && w'.listed == w.listed - {page}
    requires o != Waiting ==> SamePool(w, w')
    ensures PoolMoves(w, Free(t, ptr), o, w')
  {
  }

  lemma RootAnswers(w: View, s: Pending, o: Outcome, s': Pending)
    requires s.HasRoot? && (o.Gave? <==> ((s.va == 0) != (PageOfRoot(w.rootPage, s.p) == 0)))
    requires !o.Gave? ==> (s'.GivesBack? <==> s.va == 0)
    ensures Answers(w, s, o, s')
  {
  }

  lemma RootAt(rootPage: seq<nat>, p: nat, va: nat)
    requires PER_PAGE > 0 && p / PER_PAGE < |rootPage|
    ensures PageOfRoot(rootPage, p) == rootPage[p / PER_PAGE]
    ensures WithRootPage(rootPage, p, va) == if va == 0 then rootPage else rootPage[p / PER_PAGE := va]
  {
  }

  lemma RootOf(rootPage: seq<nat>, p: nat)
    requires |rootPage| == NROOTS && p < TOTAL
    ensures PER_PAGE > 0 && p / PER_PAGE < |rootPage| && PageOfRoot(rootPage, p) == rootPage[p / PER_PAGE]
  {
  }

  /** Nobody is stuck: a thread that is not waiting can make any call, and one that is has a step, for every
      answer of alloc_kpages if that is what it waits for. */
  lemma NobodyStuck(v: Shared, t: nat)
    ensures t !in v.pending ==>
              && (forall sz :: sz < 2048 ==> Enabled(v, Malloc(t, sz)))
              && (forall sz, va :: sz >= 2048 && FreshRun(va, PagesFor(sz), v.taken, v.runs) ==>
                    Enabled(v, Large(t, sz, va)))
              && forall ptr :: ptr in v.given || ptr in v.large ==> Enabled(v, Free(t, ptr))
    ensures t in v.pending ==>
              if v.pending[t].WantsPage? || v.pending[t].WantsRoot? then
                forall va :: Fresh(va, v.taken, v.runs) ==> Enabled(v, Pages(t, va))
              else
                Enabled(v, Relock(t)) || Enabled(v, FreePages(t))
  {
  }

  lemma OnlyFit(sz: nat, b: blocktype, full: set<nat>)
    requires FitsBest(sz, b)
    ensures b as nat in full <==> exists c: blocktype :: FitsBest(sz, c) && c as nat in full
  {
    hide FitsBest;
    forall c: blocktype | FitsBest(sz, c)
      ensures c == b
    {
      OneFit(sz, b, c);
    }
  }

  lemma OneFit(sz: nat, b: blocktype, c: blocktype)
    requires FitsBest(sz, b) && FitsBest(sz, c)
    ensures b == c
  {
  }

  /** NULL is the answer to a thread with a page only when no descriptor is left, or when alloc_kpages gave it no
      page of descriptors and nobody else has supplied one. */
  lemma NullOnlyWithout(w: View, t: nat, o: Outcome, w': View)
    requires StepDoes(w, Relock(t), o, w') && t in w'.s.pending && w'.s.pending[t].GivesBack?
    ensures t in w.s.pending
    ensures var s := w.s.pending[t];
            if s.HasPage? then RootsFull(w.numinuse)
            else s.HasRoot? && s.va == 0 && PageOfRoot(w.rootPage, s.p) == 0
  {
  }

  /** Conservation: each page the heap has is with one thread, on the lists, or holds descriptors, and none is
      part of a large block. */
  ghost predicate Conserved(v: View) {
    && ThreadsOk(v.s.pending, v.claimed, v.held, v.rootPage)
    && v.s.taken == v.held + v.listed + Roots(v.rootPage)
    && LargeOk(v.s.taken, v.s.runs, v.s.large, v.s.pending)
    && |v.numinuse| == NROOTS && forall r :: 0 <= r < |v.numinuse| ==> v.numinuse[r] <= PER_PAGE
  }

  function Supplied(s: Pending, va: nat): Pending
    requires s.WantsPage? || s.WantsRoot?
  {
    if s.WantsPage? then HasPage(s.sz, s.b, va) else HasRoot(s.sz, s.b, s.p, s.page, va)
  }

  /** What a thread with the lock and its pages in hand may have to wait for next. */
  predicate GoesOn(s: Pending, s': Pending) {
    match s
    case HasPage(sz, b, page) => s' == GivesBack(page) || (s'.WantsRoot? && s' == WantsRoot(sz, b, s'.p, page))
    case HasRoot(sz, b, p, page, va) => s' == if va == 0 then GivesBack(page) else GaveSurplus(sz, b, p, page)
    case _ => false
  }

  /** The step, by a thread that can take it, changes what that thread waits for and nobody else; a block it
      is given was nobody's; what it frees is nobody's any more; and it does not free a block that kfree
      panics on. */
  ghost predicate StepDoes(w: View, e: Event, o: Outcome, w': View) {
    var v, v' := w.s, w'.s;
    && (e.Large? || e.Free? || e.FreePages? || (v'.runs == v.runs && v'.large == v.large))
    && match e
       case Malloc(t, sz) =>
         && v'.taken == v.taken
         && (o == Waiting <==> exists b: blocktype :: FitsBest(sz, b) && b as nat in w.full)
         && if o.Gave? then o.ptr !in v.given && v'.given == v.given + {o.ptr} && v'.pending == v.pending
            else o == Waiting && v'.given == v.given
                 && exists b: blocktype :: FitsBest(sz, b) && v'.pending == v.pending[t := WantsPage(sz, b)]
       case Large(t, sz, va) =>
         && o == (if va == 0 then OutOfMemory else Gave(va))
         && v' == if va == 0 || PagesFor(sz) == 0 then v
                  else v.(runs := v.runs[va := PagesFor(sz)], large := v.large + {va})
       case Pages(t, va) =>
         && t in v.pending && (v.pending[t].WantsPage? || v.pending[t].WantsRoot?) && v'.given == v.given
         && if va == 0 && v.pending[t].WantsPage?
            then o == OutOfMemory && v'.taken == v.taken && v'.pending == v.pending - {t}
            else && o == Waiting && v'.taken == v.taken + (if va == 0 then {} else {va})
                 && v'.pending == v.pending[t := Supplied(v.pending[t], va)]
       case Relock(t) =>
         && t in v.pending && Answers(w, v.pending[t], o, if t in v'.pending then v'.pending[t] else v.pending[t])
         && if o.Gave? then && o.ptr !in v.given && v'.given == v.given + {o.ptr}
                            && v'.pending == v.pending - {t} && v'.taken == v.taken
            else && o == Waiting && v'.given == v.given && t in v'.pending && GoesOn(v.pending[t], v'.pending[t])
                 && v'.pending == v.pending[t := v'.pending[t]]
                 && v'.taken == v.taken - (if v'.pending[t].GaveSurplus? && v.pending[t].HasRoot?
                                           then {v.pending[t].va} else {})
       case Free(t, ptr) =>
         if ptr in v.large then
           o == Waiting && v' == v.(pending := v.pending[t := GivesRun(ptr)], large := v.large - {ptr})
         else
           && ptr !in w.trapped
           && v'.taken == v.taken && v'.given == v.given - {ptr} && v'.runs == v.runs && v'.large == v.large
           && if o == Done then v'.pending == v.pending
              else o == Waiting && t in v'.pending && v'.pending[t].GivesBack?
                   && v'.pending == v.pending[t := v'.pending[t]]
       case FreePages(t) =>
         && t in v.pending && o == Done
         && if v.pending[t].GivesRun? then
              v' == v.(pending := v.pending - {t}, runs := v.runs - {v.pending[t].run})
            else
              && v.pending[t].GivesBack?
              && v' == v.(pending := v.pending - {t}, taken := v.taken - {v.pending[t].page})
  }

  lemma SuppliedIs(s: Pending, va: nat)
    requires s.WantsPage? || s.WantsRoot?
    ensures Supplied(s, va) == if s.WantsPage? then HasPage(s.sz, s.b, va) else HasRoot(s.sz, s.b, s.p, s.page, va)
  {
  }

  lemma WithPage(s: Pending, s': Pending)
    requires s.HasPage? && (s' == GivesBack(s.page) || (s'.WantsRoot? && s' == WantsRoot(s.sz, s.b, s'.p, s.page)))
    ensures GoesOn(s, s')
  {
  }

  lemma WithRoot(s: Pending, s': Pending)
    requires s.HasRoot? && s' == if s.va == 0 then GivesBack(s.page) else GaveSurplus(s.sz, s.b, s.p, s.page)
    ensures GoesOn(s, s')
  {
  }

  lemma NoPanic(v: View, e: Event, o: Outcome, v': View)
    requires StepDoes(v, e, o, v')
    ensures o != Panicked
  {
  }

  ghost predicate Moved(v: View, e: Event, o: Outcome, v': View) {
    if Enabled(v.s, e) then StepDoes(v, e, o, v') && PoolMoves(v, e, o, v') else o == Skipped && v' == v
  }

  /** The last step is a kfree of a block that kfree panics on in the last state. */
  ghost predicate PanicsAt(views: seq<View>, events: seq<Event>, outcomes: seq<Outcome>) {
    && 0 < |views| == |outcomes| <= |events|
    && var k := |views| - 1;
       outcomes[k] == Panicked && Enabled(views[k].s, events[k]) && events[k].Free? && events[k].ptr in views[k].trapped
  }

  lemma HasPanicked(views: seq<View>, events: seq<Event>, outcomes: seq<Outcome>)
    requires 0 < |views| == |outcomes| <= |events|
    requires var k := |views| - 1;
             outcomes[k] == Panicked && Enabled(views[k].s, events[k]) && events[k].Free?
               && events[k].ptr in views[k].trapped
    ensures PanicsAt(views, events, outcomes)
  {
  }

  lemma EnabledFree(v: Shared, t: nat, ptr: nat)
    requires Enabled(v, Free(t, ptr))
    ensures t !in v.pending && (ptr in v.given || ptr in v.large)
  {
  }

  lemma FreeDoes(w: View, t: nat, ptr: nat, o: Outcome, w': View)
    requires ptr !in w.s.large && ptr !in w.trapped && w'.s.given == w.s.given - {ptr}
    requires w'.s.taken == w.s.taken && w'.s.runs == w.s.runs && w'.s.large == w.s.large
    requires if o == Done then w'.s.pending == w.s.pending
             else && o == Waiting && t in w'.s.pending && w'.s.pending[t].GivesBack?
                  && w'.s.pending == w.s.pending[t := w'.s.pending[t]]
    ensures StepDoes(w, Free(t, ptr), o, w')
  {
  }

  lemma HasMoved(v: View, e: Event, o: Outcome, v': View)
    requires if Enabled(v.s, e) then StepDoes(v, e, o, v') && PoolMoves(v, e, o, v') else o == Skipped && v' == v
    ensures Moved(v, e, o, v')
  {
  }

  /** The block is the last one in use of a page whose descriptor cannot be given back: an allocation of a page of
      descriptors has failed for an earlier root. */
  ghost predicate LastOnLeakyPage(refs: seq<PageRef>, all: seq<nat>, numinuse: seq<nat>, rootPage: seq<nat>, ptr: nat) {
    exists p :: p in all && p < |refs| && LeakyPage(refs, numinuse, rootPage, p, ptr)
  }

  ghost predicate LeakyPage(refs: seq<PageRef>, numinuse: seq<nat>, rootPage: seq<nat>, p: nat, ptr: nat)
    requires p < |refs|
  {
    && BlockType(refs[p]) < NSIZES && ptr in BlocksOf(refs[p])
    && refs[p].nfree + 1 == CountOf(BlockType(refs[p])) && LeakBefore(numinuse, rootPage, p / PER_PAGE)
  }

  class System {
    const heap: Heap
    var pending: map<nat, Pending>
    /** The pages the heap has got from alloc_kpages, and the small blocks callers have. */
    var taken: set<nat>
    var given: set<nat>
    /** The runs of pages that are out for large requests, and those of them that callers have. */
    var runs: map<nat, nat>
    var large: set<nat>
    var panicked: bool

    constructor ()
      ensures Inv() && !panicked && fresh(heap) && Here() == Shared(map[], {}, {}, map[], {})
      ensures Now().numinuse == Now().rootPage == seq(NROOTS, r => 0)
      ensures forall b: nat :: b in Full() <==> b < NSIZES
      ensures Lost(Now()) == 0
    {
      heap := new Heap();
      pending, taken, given, runs, large, panicked := map[], {}, {}, map[], {}, false;
      new;
      NoneInUse(heap.numinuse);
    }

    function Here(): Shared reads this {
      Shared(pending, taken, given, runs, large)
    }

    /** Conservation: each page the heap ever took is with one thread, on the lists, or holds
        descriptors; each small block handed out is with a caller; and so is each large one. */
    ghost predicate Inv()
      reads this, heap
    {
      && heap.Valid()
      && ThreadsOk(pending, heap.claimed, heap.held, heap.rootPage)
      && taken == heap.held + heap.Listed() + Roots(heap.rootPage)
      && given == heap.live
      && LargeOk(taken, runs, large, pending)
    }

    /** The blocks that callers had and still have hold what they held, small and large ones. */
    ghost predicate Kept(refs0: seq<PageRef>, all0: seq<nat>, v0: Shared, mem0: map<nat, nat>)
      reads this, heap
    {
      && Untouched(refs0, all0, v0.given * given, mem0, heap.mem)
      && RunsUntouched(v0.runs, v0.large * large, mem0, heap.mem)
    }

    /** The blocks that kfree would panic on. */
    ghost function Trapped(): set<nat>
      reads this, heap
    {
      set x | x in given && LastOnLeakyPage(heap.refs, heap.all, heap.numinuse, heap.rootPage, x)
    }

    /** The block types of which no block is free. */
    ghost function Full(): set<nat>
      reads this, heap
    {
      set b: nat | b < NSIZES && TypeFull(heap.refs, heap.all, b)
    }

    ghost function Now(): View
      reads this, heap
    {
      View(Here(), heap.claimed, heap.held, heap.Listed(), heap.rootPage, heap.numinuse, Full(), Trapped())
    }

    lemma UnfoldInv()
      requires Inv()
      ensures heap.Valid() && ThreadsOk(pending, heap.claimed, heap.held, heap.rootPage) && given == heap.live
      ensures taken == heap.held + heap.Listed() + Roots(heap.rootPage) && |heap.rootPage| == NROOTS
      ensures LargeOk(taken, runs, large, pending)
    {
    }

    /** After a step of thread t that has nothing to do with large blocks. */
    lemma FoldInv(taken0: set<nat>, pending0: map<nat, Pending>, t: nat, added: set<nat>)
      requires heap.Valid() && ThreadsOk(pending, heap.claimed, heap.held, heap.rootPage) && given == heap.live
      requires taken == heap.held + heap.Listed() + Roots(heap.rootPage)
      requires LargeOk(taken0, runs, large, pending0)
      requires taken <= taken0 + added && forall g :: g in added ==> Clear(runs, g)
      requires OnlyThread(pending0, pending, t)
      requires (t in pending0 ==> !pending0[t].GivesRun?) && (t in pending ==> !pending[t].GivesRun?)
      ensures Inv()
    {
      hide *;
      LargeSame(taken0, runs, large, pending0, taken, pending, t, added);
      MakeInv();
    }

    lemma MakeInv()
      requires heap.Valid() && ThreadsOk(pending, heap.claimed, heap.held, heap.rootPage) && given == heap.live
      requires taken == heap.held + heap.Listed() + Roots(heap.rootPage) && LargeOk(taken, runs, large, pending)
      ensures Inv()
    {
    }

    lemma FreshPage(va: nat)
      requires Inv() && Fresh(va, taken, runs) && va != 0
      ensures va % PAGE_SIZE == 0 && va + PAGE_SIZE <= 0x1_0000_0000 && Clear(runs, va)
      ensures va !in heap.rootPage && va !in heap.Listed() && va !in heap.held && va !in taken
    {
      hide ListsOk, PagesOk, BitsOk, ListedPages, ThreadsOk, LargeOk, Clear;
      forall r | 0 <= r < |heap.rootPage|
        ensures heap.rootPage[r] != va
      {
        assert heap.rootPage[r] != 0 ==> heap.rootPage[r] in Roots(heap.rootPage);
      }
    }

    /** The thread that asked for sz bytes got a block of the best size, that nobody else has. */
    ghost predicate Served(sz: nat, ptr: nat, given0: set<nat>)
      reads this, heap
    {
      ptr !in given0 && given == given0 + {ptr} && exists b: blocktype :: FitsBest(sz, b) && heap.Allocated(ptr, b)
    }

    lemma FoldServed(sz: nat, b: blocktype, ptr: nat, given0: set<nat>)
      requires FitsBest(sz, b) && heap.Allocated(ptr, b) && ptr !in given0 && given == given0 + {ptr}
      ensures Served(sz, ptr, given0)
    {
    }

    lemma IsFull(b: blocktype)
      ensures b as nat in Full() <==> TypeFull(heap.refs, heap.all, b)
    {
    }

    /** kmalloc of less than half a page, up to its first window or its end. */
    method StartMalloc(t: nat, sz: nat) returns (o: Outcome)
      requires Inv() && t !in pending && sz < 2048
      modifies this`pending, this`taken, this`given, this`panicked, heap
      ensures Inv() && panicked == old(panicked) && (o == Waiting || o.Gave?)
      ensures taken == old(taken)
      ensures o == Waiting ==> t in pending && pending[t].WantsPage? && given == old(given)
      ensures o == Waiting ==> pending == old(pending)[t := WantsPage(sz, pending[t].b)] && FitsBest(sz, pending[t].b)
      ensures o.Gave? ==> Served(sz, o.ptr, old(given)) && pending == old(pending)
      ensures o == Waiting <==> exists b: blocktype :: FitsBest(sz, b) && b as nat in old(Full())
      ensures heap.mem == old(heap.mem)
      ensures SamePool(old(Now()), Now())
    {
      hide *;
      UnfoldInv();
      ghost var w := Now();
      AreNow();
      var ok, b := BlockTypeFor(sz);
      IsFull(b);
      OnlyFit(sz, b, Full());
      var r, p := heap.SubpageAllocate(b);
      if r == NeedPage {
        NothingHeld(pending, t);
        What(WantsPage(sz, b), heap.rootPage);
        Moves(pending, heap.claimed, heap.held, heap.rootPage, t, WantsPage(sz, b), heap.claimed, heap.held,
              heap.rootPage);
        OnlyOne(pending, t, WantsPage(sz, b));
        pending := pending[t := WantsPage(sz, b)];
        FoldInv(old(taken), old(pending), t, {});
        Unmoved(w);
        return Waiting;
      }
      TookLive(heap, p, r.ptr, old(heap.refs), old(heap.chain), old(heap.live));
      given := given + {r.ptr};
      OnlyOne(pending, t, WantsPage(sz, b));
      FoldServed(sz, b, r.ptr, old(given));
      FoldInv(old(taken), old(pending), t, {});
      Unmoved(w);
      return Gave(r.ptr);
    }

    /** alloc_kpages returns to a thread that does not hold the spinlock. */
    method PagesCame(t: nat, va: nat) returns (o: Outcome)
      requires Inv() && t in pending && (pending[t].WantsPage? || pending[t].WantsRoot?) && Fresh(va, taken, runs)
      modifies this`pending, this`taken, this`given, this`panicked, heap
      ensures Inv() && panicked == old(panicked) && given == old(given)
      ensures o == if va == 0 && old(pending[t]).WantsPage? then OutOfMemory else Waiting
      ensures pending == if o == OutOfMemory
              then old(pending) - {t} else old(pending)[t := Supplied(old(pending)[t], va)]
      ensures taken == old(taken) + (if va == 0 then {} else {va})
      ensures heap.mem == old(heap.mem)
      ensures SamePool(old(Now()), Now())
    {
      hide *;
      UnfoldInv();
      ghost var w := Now();
      AreNow();
      var s := pending[t];
      OnlyOne(pending, t, s);
      HeldBy(pending, heap.claimed, heap.held, heap.rootPage, t);
      What(s, heap.rootPage);
      if va == 0 && s.WantsPage? {
        Leaves(pending, heap.claimed, heap.held, heap.rootPage, t, heap.claimed, heap.held, heap.rootPage);
        pending := pending - {t};
        FoldInv(old(taken), old(pending), t, {});
        Unmoved(w);
        return OutOfMemory;
      }
      var s' := if s.WantsPage? then HasPage(s.sz, s.b, va) else HasRoot(s.sz, s.b, s.p, s.page, va);
      assert s' == Supplied(s, va) by { SuppliedIs(s, va); }
      What(s', heap.rootPage);
      if s.WantsRoot? { HeldApart(heap, s.page); }
      if va != 0 {
        FreshPage(va);
        heap.TakeKPage(va);
        taken := taken + {va};
      }
      Moves(pending, heap.claimed, old(heap.held), heap.rootPage, t, s', heap.claimed, heap.held, heap.rootPage);
      OnlyOne(pending, t, s');
      pending := pending[t := s'];
      FoldInv(old(taken), old(pending), t, if va == 0 then {} else {va});
      Unmoved(w);
      return Waiting;
    }

    /** A thread with its page takes the spinlock again. */
    method PageInHand(t: nat) returns (o: Outcome)
      requires Inv() && t in pending && pending[t].HasPage?
      modifies this`pending, this`taken, this`given, this`panicked, heap
      ensures Inv() && panicked == old(panicked) && (o == Waiting || o.Gave?)
      ensures o == Waiting ==> t in pending && GoesOn(old(pending)[t], pending[t])
                               && pending == old(pending)[t := pending[t]] && given == old(given)
      ensures o.Gave? ==> Served(old(pending[t]).sz, o.ptr, old(given)) && pending == old(pending) - {t}
      ensures Answers(old(Now()), old(pending[t]), o, if t in pending then pending[t] else old(pending[t]))
      ensures taken == old(taken)
      ensures if o.Gave? then WroteOnly(old(heap.mem), heap.mem, old(pending[t]).page, PAGE_SIZE)
              else heap.mem == old(heap.mem)
      ensures RelockPool(old(Now()), old(pending[t]), o, Now(), if t in pending then pending[t] else old(pending[t]))
    {
      hide *;
      UnfoldInv();
      var s := pending[t];
      OnlyOne(pending, t, s);
      ghost var claimed0, held0, listed0, live0 := heap.claimed, heap.held, heap.Listed(), heap.live;
      HeldBy(pending, claimed0, held0, heap.rootPage, t);
      What(s, heap.rootPage);
      HeldApart(heap, s.page);
      ghost var w, numinuse0 := Now(), heap.numinuse;
      AreNow();
      var r := heap.AddPage(s.b, s.page);
      if r.NeedRootPage? { RootOf(heap.rootPage, r.pr); }
      AddPageDecides(numinuse0, heap.numinuse, heap.rootPage, r);
      if r.Block? {
        UnfoldObtained(heap, r.ptr, s.b, s.page, live0);
        Leaves(pending, claimed0, held0, heap.rootPage, t, heap.claimed, heap.held, heap.rootPage);
        ToLists(held0, heap.held, listed0, heap.Listed(), Roots(heap.rootPage), s.page);
        pending, given := pending - {t}, given + {r.ptr};
        FoldServed(s.sz, s.b, r.ptr, old(given));
        FoldInv(old(taken), old(pending), t, {});
        PageAnswers(w, s, Gave(r.ptr), s);
        AreNow();
        PagePool(w, s, Gave(r.ptr), Now(), s, r, numinuse0);
        return Gave(r.ptr);
      }
      var s' := if r.NeedRootPage? then WantsRoot(s.sz, s.b, r.pr, s.page) else GivesBack(s.page);
      WithPage(s, s');
      What(s', heap.rootPage);
      Moves(pending, claimed0, held0, heap.rootPage, t, s', heap.claimed, heap.held, heap.rootPage);
      OnlyOne(pending, t, s');
      pending := pending[t := s'];
      FoldInv(old(taken), old(pending), t, {});
      PageAnswers(w, s, Waiting, s');
      AreNow();
      if r.NoPageRef? { Unmoved(w); }
      PagePool(w, s, Waiting, Now(), s', r, numinuse0);
      return Waiting;
    }

    lemma RootDone(w: View, s: Pending, o: Outcome, s': Pending, a: Allocation)
      requires s.HasRoot? && heap.numinuse == w.numinuse && s.p in w.claimed && s.page !in w.listed
      requires a.Block? || a.NoPageRef? || a.SurplusRootPage?
      requires (o.Gave? <==> a.Block?) && (!o.Gave? ==> (s'.GivesBack? <==> a.NoPageRef?))
      requires heap.Listed() == if a.Block? then w.listed + {s.page} else w.listed
      requires heap.claimed == if a.SurplusRootPage? then w.claimed else w.claimed - {s.p}
      requires PER_PAGE > 0 && s.p / PER_PAGE < |w.rootPage|
      requires a.NoPageRef? <==> s.va == 0 && w.rootPage[s.p / PER_PAGE] == 0
      requires a.SurplusRootPage? <==> s.va != 0 && w.rootPage[s.p / PER_PAGE] != 0
      requires heap.rootPage == if a.Block? && s.va != 0 then w.rootPage[s.p / PER_PAGE := s.va] else w.rootPage
      ensures Answers(w, s, o, s') && RelockPool(w, s, o, Now(), s')
    {
      hide *;
      AreNow();
      RootAt(w.rootPage, s.p, s.va);
      RootAnswers(w, s, o, s');
      RootPool(w, s, o, Now(), s', a);
    }

    /** A thread that asked for a page of descriptors takes the spinlock again. */
    method RootInHand(t: nat) returns (o: Outcome)
      requires Inv() && t in pending && pending[t].HasRoot?
      modifies this`pending, this`taken, this`given, this`panicked, heap
      ensures Inv() && panicked == old(panicked) && (o == Waiting || o.Gave?)
      ensures o == Waiting ==> t in pending && GoesOn(old(pending)[t], pending[t])
                               && pending == old(pending)[t := pending[t]] && given == old(given)
      ensures o.Gave? ==> Served(old(pending[t]).sz, o.ptr, old(given)) && pending == old(pending) - {t}
      ensures Answers(old(Now()), old(pending[t]), o, if t in pending then pending[t] else old(pending[t]))
      ensures taken == old(taken) - (if o == Waiting && pending[t].GaveSurplus? then {old(pending[t]).va} else {})
      ensures if o.Gave? then WroteOnly(old(heap.mem), heap.mem, old(pending[t]).page, PAGE_SIZE)
              else heap.mem == old(heap.mem)
      ensures RelockPool(old(Now()), old(pending[t]), o, Now(), if t in pending then pending[t] else old(pending[t]))
    {
      hide *;
      UnfoldInv();
      var s := pending[t];
      OnlyOne(pending, t, s);
      ghost var claimed0, held0, listed0 := heap.claimed, heap.held, heap.Listed();
      ghost var live0, rootPage0 := heap.live, heap.rootPage;
      RootHeld(heap, pending, t);
      HeldApart(heap, s.page);
      ghost var w, pending0, taken0, given0 := Now(), pending, taken, given;
      AreNow();
      var r := heap.RootPageArrived(s.p, s.b, s.page, s.va);
      if r.Block? {
        UnfoldObtained(heap, r.ptr, s.b, s.page, live0);
        RootUsed(pending, claimed0, held0, listed0, rootPage0, t, heap.claimed, heap.held, heap.Listed(),
                 heap.rootPage);
        pending, given := pending - {t}, given + {r.ptr};
        FoldServed(s.sz, s.b, r.ptr, given0);
        FoldInv(taken0, pending0, t, {});
        RootDone(w, s, Gave(r.ptr), s, r);
        return Gave(r.ptr);
      }
      var s' := if r.NoPageRef? then GivesBack(s.page) else GaveSurplus(s.sz, s.b, s.p, s.page);
      WithRoot(s, s');
      RootNotUsed(pending, claimed0, held0, rootPage0, t, s', heap.claimed, heap.held);
      OnlyOne(pending, t, s');
      pending := pending[t := s'];
      if r.SurplusRootPage? {
        Without1(held0, listed0, Roots(rootPage0), s.va);
        taken := taken - {s.va};
      }
      FoldInv(taken0, pending0, t, {});
      RootDone(w, s, Waiting, s', r);
      return Waiting;
    }

    /** A thread that gave back a surplus page of descriptors takes the spinlock again. */
    method SurplusInHand(t: nat) returns (o: Outcome)
      requires Inv() && t in pending && pending[t].GaveSurplus?
      modifies this`pending, this`taken, this`given, this`panicked, heap
      ensures Inv() && panicked == old(panicked)
      ensures o.Gave? && Served(old(pending[t]).sz, o.ptr, old(given)) && pending == old(pending) - {t}
              && taken == old(taken)
      ensures WroteOnly(old(heap.mem), heap.mem, old(pending[t]).page, PAGE_SIZE)
      ensures RelockPool(old(Now()), old(pending[t]), o, Now(), if t in pending then pending[t] else old(pending[t]))
    {
      hide *;
      UnfoldInv();
      var s := pending[t];
      OnlyOne(pending, t, s);
      ghost var claimed0, held0, listed0, live0 := heap.claimed, heap.held, heap.Listed(), heap.live;
      HeldBy(pending, claimed0, held0, heap.rootPage, t);
      What(s, heap.rootPage);
      HeldApart(heap, s.page);
      ghost var w := Now();
      AreNow();
      var ptr := heap.SurplusGone(s.p, s.b, s.page);
      UnfoldObtained(heap, ptr, s.b, s.page, live0);
      Leaves(pending, claimed0, held0, heap.rootPage, t, heap.claimed, heap.held, heap.rootPage);
      ToLists(held0, heap.held, listed0, heap.Listed(), Roots(heap.rootPage), s.page);
      pending, given := pending - {t}, given + {ptr};
      FoldServed(s.sz, s.b, ptr, old(given));
      FoldInv(old(taken), old(pending), t, {});
      AreNow();
      SurplusPool(w, s, Gave(ptr), Now(), s);
      return Gave(ptr);
    }

    /** kfree of a block the caller has. */
    method StartFree(t: nat, ptr: nat) returns (o: Outcome)
      requires Inv() && t !in pending && ptr in given
      modifies this`pending, this`taken, this`given, this`panicked, heap
      ensures o == Done || o == Waiting || o == Panicked
      ensures o != Panicked ==> Inv() && panicked == old(panicked) && given == old(given) - {ptr}
      ensures o == Done ==> pending == old(pending)
      ensures o == Waiting ==> t in pending && pending[t].GivesBack? && pending == old(pending)[t := pending[t]]
      ensures o != Panicked ==> taken == old(taken)
      ensures o == Panicked ==> panicked
      ensures o == Panicked <==> LastOnLeakyPage(old(heap.refs), old(heap.all), old(heap.numinuse), old(heap.rootPage),
                                                 ptr)
      ensures o != Panicked ==> exists p :: p in old(heap.all) && heap.OnlyFreed(p, ptr, old(heap.refs), old(heap.mem))
      ensures o != Panicked ==> PoolMoves(old(Now()), Free(t, ptr), o, Now())
    {
      hide *;
      UnfoldInv();
      ghost var w := Now();
      AreNow();
      NotBoth(ptr);
      ghost var refs0, all0, chain0, live0 := heap.refs, heap.all, heap.chain, heap.live;
      ghost var held0, listed0 := heap.held, heap.Listed();
      ghost var inuse0, numinuse0, sizebases0, allbase0, same0, rootPage0 :=
        heap.inuse, heap.numinuse, heap.sizebases, heap.allbase, heap.same, heap.rootPage;
      ListedApart(heap);
      ghost var q := LiveBlock(heap, ptr);
      var r, p := heap.SubpageFree(ptr);
      UnfoldPanics(refs0, chain0, numinuse0, rootPage0, p, ptr);
      PanicsIff(refs0, all0, numinuse0, rootPage0, p, ptr);
      Firsts(ptr, chain0[p]);
      if r == Panic {
        panicked := true;
        return Panicked;
      }
      given := given - {ptr};
      if r.PageFreed? {
        heap.UnfoldPageFreed(r.page, p, ptr, refs0, all0, live0, held0);
        NothingHeld(pending, t);
        What(GivesBack(r.page), heap.rootPage);
        ToLists(heap.held, held0, heap.Listed(), listed0, Roots(heap.rootPage), r.page);
        Moves(pending, heap.claimed, held0, heap.rootPage, t, GivesBack(r.page), heap.claimed, heap.held,
              heap.rootPage);
        OnlyOne(pending, t, GivesBack(r.page));
        pending := pending[t := GivesBack(r.page)];
        FoldInv(old(taken), old(pending), t, {});
        AreNow();
        FreePool(w, t, ptr, Waiting, Now(), p, r.page);
        return Waiting;
      }
      OnlyOne(pending, t, GivesBack(0));
      heap.UnfoldFreed(p, ptr, refs0, inuse0, numinuse0, sizebases0, allbase0, all0, same0, chain0, live0, held0);
      FoldInv(old(taken), old(pending), t, {});
      Unmoved(w);
      AreNow();
      FreePool(w, t, ptr, Done, Now(), p, 0);
      return Done;
    }

    /** A thread gives a page back, and is done. */
    method PageBack(t: nat) returns (o: Outcome)
      requires Inv() && t in pending && pending[t].GivesBack?
      modifies this`pending, this`taken, this`given, this`panicked, heap
      ensures Inv() && panicked == old(panicked) && o == Done
      ensures given == old(given) && pending == old(pending) - {t} && taken == old(taken) - {old(pending[t]).page}
      ensures heap.mem == old(heap.mem)
      ensures SamePool(old(Now()), Now())
    {
      hide *;
      UnfoldInv();
      ghost var w := Now();
      AreNow();
      var s := pending[t];
      OnlyOne(pending, t, s);
      ghost var held0 := heap.held;
      HeldBy(pending, heap.claimed, heap.held, heap.rootPage, t);
      What(s, heap.rootPage);
      HeldApart(heap, s.page);
      heap.GiveKPage(s.page);
      Leaves(pending, heap.claimed, held0, heap.rootPage, t, heap.claimed, heap.held, heap.rootPage);
      pending, taken := pending - {t}, taken - {s.page};
      FoldInv(old(taken), old(pending), t, {});
      Unmoved(w);
      return Done;
    }

    // ----- large blocks

    /** kmalloc of half a page or more, as far as the heap knows of it. */
    method StartLarge(t: nat, sz: word, va: nat) returns (o: Outcome)
      requires Inv() && FreshRun(va, PagesFor(sz), taken, runs)
      modifies this`runs, this`large
      ensures Inv() && o == if va == 0 then OutOfMemory else Gave(va)
      ensures va == 0 || PagesFor(sz) == 0 ==> runs == old(runs) && large == old(large)
      ensures va != 0 && PagesFor(sz) > 0 ==> runs == old(runs)[va := PagesFor(sz)] && large == old(large) + {va}
      ensures SamePool(old(Now()), Now())
    {
      hide *;
      UnfoldInv();
      ghost var w := Now();
      AreNow();
      var npages := PagesFor(sz);
      if va == 0 {
        Unmoved(w);
        return OutOfMemory;
      }
      if npages > 0 {
        LargeGiven(taken, runs, large, pending, va, npages);
        runs, large := runs[va := npages], large + {va};
        MakeInv();
      }
      Unmoved(w);
      return Gave(va);
    }

    /** kfree of a large block: subpage_kfree does not know it, so it goes back to alloc_kpages whole. */
    method StartLargeFree(t: nat, ptr: nat) returns (o: Outcome)
      requires Inv() && t !in pending && ptr in large
      modifies this`pending, this`large, heap
      ensures Inv() && o == Waiting && ptr % PAGE_SIZE == 0
      ensures pending == old(pending)[t := GivesRun(ptr)] && large == old(large) - {ptr}
      ensures heap.mem == old(heap.mem) && heap.refs == old(heap.refs) && heap.all == old(heap.all)
      ensures SamePool(old(Now()), Now())
    {
      hide *;
      UnfoldInv();
      ghost var w := Now();
      AreNow();
      WholePagesAreNotOurs(ptr);
      ghost var listed0 := heap.Listed();
      var r, p := heap.SubpageFree(ptr);
      NothingHeld(pending, t);
      What(GivesRun(ptr), heap.rootPage);
      Moves(pending, heap.claimed, heap.held, heap.rootPage, t, GivesRun(ptr), heap.claimed, heap.held, heap.rootPage);
      LargeFreed(taken, runs, large, pending, t, ptr);
      pending, large := pending[t := GivesRun(ptr)], large - {ptr};
      MakeInv();
      Unmoved(w);
      return Waiting;
    }

    method RunBack(t: nat) returns (o: Outcome)
      requires Inv() && t in pending && pending[t].GivesRun?
      modifies this`pending, this`runs
      ensures Inv() && o == Done
      ensures pending == old(pending) - {t} && runs == old(runs) - {old(pending[t]).run}
      ensures SamePool(old(Now()), Now())
    {
      hide *;
      UnfoldInv();
      ghost var w := Now();
      AreNow();
      HeldBy(pending, heap.claimed, heap.held, heap.rootPage, t);
      What(pending[t], heap.rootPage);
      Leaves(pending, heap.claimed, heap.held, heap.rootPage, t, heap.claimed, heap.held, heap.rootPage);
      LargeBack(taken, runs, large, pending, t);
      pending, runs := pending - {t}, runs - {pending[t].run};
      MakeInv();
      Unmoved(w);
      return Done;
    }

    /** kfree tells the two kinds of memory apart: in every reachable state a large block is in no page of the
        subpage allocator. */
    lemma WholePagesAreNotOurs(u: nat)
      requires Inv() && u in runs
      ensures forall q :: q in heap.all && q < |heap.refs| ==> !InPage(heap.refs[q], u)
      ensures u % PAGE_SIZE == 0
    {
      hide *;
      UnfoldInv();
      heap.UnfoldCore();
      heap.UnfoldListed();
      forall q | q in heap.all && q < |heap.refs|
        ensures !InPage(heap.refs[q], u)
      {
        InListed(heap.refs, heap.all, q);
        RunOk(taken, runs, large, pending, u);
        RunNotIn(heap.refs[q], taken, runs, large, pending, u);
      }
      RunOk(taken, runs, large, pending, u);
    }

    /** In every reachable state a large block shares no word with another large block, with any block of the
        subpage allocator, live or free, or with a page of descriptors. */
    lemma LargeBlocksApart(u: nat)
      requires Inv() && u in runs
      ensures forall v :: v in runs && v != u ==> NoneShared(u, runs[u], v, runs[v])
      ensures forall q, x :: q in heap.all && q < |heap.refs|
                             && x in BlocksOf(heap.refs[q]) && BlockType(heap.refs[q]) < NSIZES ==>
                x + SizeOf(BlockType(heap.refs[q])) <= u || u + runs[u] * PAGE_SIZE <= x
      ensures forall r :: 0 <= r < |heap.rootPage| && heap.rootPage[r] != 0 ==>
                NoneShared(heap.rootPage[r], 1, u, runs[u])
    {
      assert NSIZES == 8;
      hide *;
      UnfoldInv();
      heap.UnfoldCore();
      heap.UnfoldListed();
      RunOk(taken, runs, large, pending, u);
      forall q, x | q in heap.all && q < |heap.refs| && x in BlocksOf(heap.refs[q]) && BlockType(heap.refs[q]) < NSIZES
        ensures x + SizeOf(BlockType(heap.refs[q])) <= u || u + runs[u] * PAGE_SIZE <= x
      {
        InListed(heap.refs, heap.all, q);
        BlockInside(heap.refs[q], x);
        PageClear(taken, runs, large, pending, PageAddr(heap.refs[q]), u);
      }
      forall r | 0 <= r < |heap.rootPage| && heap.rootPage[r] != 0
        ensures NoneShared(heap.rootPage[r], 1, u, runs[u])
      {
        InRoots(heap.rootPage, r);
        PageClear(taken, runs, large, pending, heap.rootPage[r], u);
        FoldNoneShared(heap.rootPage[r], u, runs[u]);
      }
    }

    // ----- each step, as a change of the whole

    method TakeMalloc(t: nat, sz: word) returns (o: Outcome)
      requires Inv() && Enabled(Here(), Malloc(t, sz))
      modifies this, heap
      ensures Inv() && panicked == old(panicked)
      ensures StepDoes(old(Now()), Malloc(t, sz), o, Now())
      ensures PoolMoves(old(Now()), Malloc(t, sz), o, Now())
      ensures Kept(old(heap.refs), old(heap.all), old(Here()), old(heap.mem))
      ensures o.Gave? ==> Served(sz, o.ptr, old(given))
    {
      hide ThreadsOk, Roots, Untouched, HeldOk, PagesOk, ListsOk, BitsOk, RootsOk, WroteOnly, LargeOk, RunsUntouched;
      o := StartMalloc(t, sz);
      NothingWritten(old(heap.refs), old(heap.all), old(given) * given, old(heap.mem));
      NoRunWritten(old(runs), old(large) * large, old(heap.mem));
    }

    method TakeLarge(t: nat, sz: word, va: nat) returns (o: Outcome)
      requires Inv() && Enabled(Here(), Large(t, sz, va))
      modifies this, heap
      ensures Inv() && panicked == old(panicked)
      ensures StepDoes(old(Now()), Large(t, sz, va), o, Now())
      ensures PoolMoves(old(Now()), Large(t, sz, va), o, Now())
      ensures Kept(old(heap.refs), old(heap.all), old(Here()), old(heap.mem))
    {
      hide ThreadsOk, Roots, Untouched, HeldOk, PagesOk, ListsOk, BitsOk, RootsOk, WroteOnly, LargeOk, RunsUntouched;
      o := StartLarge(t, sz, va);
      NothingWritten(old(heap.refs), old(heap.all), old(given) * given, old(heap.mem));
      NoRunWritten(old(runs), old(large) * large, old(heap.mem));
    }

    method TakePages(t: nat, va: nat) returns (o: Outcome)
      requires Inv() && Enabled(Here(), Pages(t, va))
      modifies this, heap
      ensures Inv() && panicked == old(panicked)
      ensures StepDoes(old(Now()), Pages(t, va), o, Now())
      ensures PoolMoves(old(Now()), Pages(t, va), o, Now())
      ensures Kept(old(heap.refs), old(heap.all), old(Here()), old(heap.mem))
      ensures !o.Gave?
    {
      hide ThreadsOk, Roots, Untouched, HeldOk, PagesOk, ListsOk, BitsOk, RootsOk, WroteOnly, LargeOk, RunsUntouched;
      o := PagesCame(t, va);
      NothingWritten(old(heap.refs), old(heap.all), old(given) * given, old(heap.mem));
      NoRunWritten(old(runs), old(large) * large, old(heap.mem));
    }

    method TakeRelock(t: nat) returns (o: Outcome)
      requires Inv() && Enabled(Here(), Relock(t))
      modifies this, heap
      ensures Inv() && panicked == old(panicked)
      ensures StepDoes(old(Now()), Relock(t), o, Now())
      ensures PoolMoves(old(Now()), Relock(t), o, Now())
      ensures Kept(old(heap.refs), old(heap.all), old(Here()), old(heap.mem))
      ensures o.Gave? ==> Served(old(pending)[t].sz, o.ptr, old(given))
    {
      hide ThreadsOk, Roots, Untouched, HeldOk, PagesOk, ListsOk, BitsOk, RootsOk, WroteOnly, LargeOk, RunsUntouched;
      UnfoldInv();
      heap.UnfoldCore();
      ghost var refs0, all0, held0, mem0, v0, page := heap.refs, heap.all, heap.held, heap.mem, Here(), pending[t].page;
      HoldsPage(t);
      RunsClear(taken, runs, large, pending, page);
      if pending[t].HasPage? {
        o := PageInHand(t);
      } else if pending[t].HasRoot? {
        o := RootInHand(t);
      } else {
        o := SurplusInHand(t);
      }
      if o.Gave? {
        NewPageOnly(refs0, all0, held0, page, v0.given * given, mem0, heap.mem);
        RunsAway(runs, v0.large * large, page, page, PAGE_SIZE, mem0, heap.mem);
      } else {
        NothingWritten(refs0, all0, v0.given * given, mem0);
        NoRunWritten(runs, v0.large * large, mem0);
      }
    }

    method TakeLargeFree(t: nat, ptr: nat) returns (o: Outcome)
      requires Inv() && Enabled(Here(), Free(t, ptr)) && ptr in large
      modifies this, heap
      ensures Inv() && panicked == old(panicked) && o == Waiting
      ensures StepDoes(old(Now()), Free(t, ptr), o, Now())
      ensures PoolMoves(old(Now()), Free(t, ptr), o, Now())
      ensures Kept(old(heap.refs), old(heap.all), old(Here()), old(heap.mem))
    {
      hide ThreadsOk, Roots, Untouched, HeldOk, PagesOk, ListsOk, BitsOk, RootsOk, WroteOnly, LargeOk, RunsUntouched;
      o := StartLargeFree(t, ptr);
      NothingWritten(old(heap.refs), old(heap.all), old(given) * given, old(heap.mem));
      NoRunWritten(old(runs), old(large) * large, old(heap.mem));
    }

    method TakeSmallFree(t: nat, ptr: nat) returns (o: Outcome)
      requires Inv() && Enabled(Here(), Free(t, ptr)) && ptr !in large
      modifies this, heap
      ensures o != Panicked ==> Inv() && panicked == old(panicked) && !o.Gave?
      ensures o != Panicked ==> StepDoes(old(Now()), Free(t, ptr), o, Now())
      ensures o != Panicked ==> PoolMoves(old(Now()), Free(t, ptr), o, Now())
      ensures o != Panicked ==> Kept(old(heap.refs), old(heap.all), old(Here()), old(heap.mem))
      ensures o == Panicked ==> panicked
      ensures o == Panicked <==> ptr in old(Trapped())
    {
      hide *;
      EnabledFree(Here(), t, ptr);
      UnfoldInv();
      heap.UnfoldCore();
      heap.UnfoldListed();
      IsTrapped(ptr);
      ghost var refs0, all0, chain0, live0, mem0, w0 := heap.refs, heap.all, heap.chain, heap.live, heap.mem, Now();
      AreNow();
      o := StartFree(t, ptr);
      if o != Panicked {
        ghost var p :| p in all0 && heap.OnlyFreed(p, ptr, refs0, mem0);
        UnfoldOnlyFreed(heap, p, ptr, refs0, mem0);
        InListed(refs0, all0, p);
        FreeWrites(refs0, all0, chain0, live0, p, ptr, w0.s, w0.s.given * given, w0.s.large * large, mem0, heap.mem);
        FoldKept(refs0, all0, w0.s, mem0);
        AreNow();
        FreeDoes(w0, t, ptr, o, Now());
      }
    }

    lemma IsTrapped(ptr: nat)
      ensures ptr in Trapped() <==> ptr in given
                                    && LastOnLeakyPage(heap.refs, heap.all, heap.numinuse, heap.rootPage, ptr)
    {
    }

    /** No descriptor has changed hands since. */
    lemma Unmoved(w: View)
      requires heap.numinuse == w.numinuse && heap.claimed == w.claimed && heap.Listed() == w.listed
      requires heap.rootPage == w.rootPage
      ensures SamePool(w, Now())
    {
    }

    lemma AreNow()
      ensures Now().s == Here() == Shared(pending, taken, given, runs, large) && Now().trapped == Trapped()
      ensures Now().numinuse == heap.numinuse && Now().rootPage == heap.rootPage && Now().full == Full()
      ensures Now().claimed == heap.claimed && Now().listed == heap.Listed()
    {
    }

    lemma FoldKept(refs0: seq<PageRef>, all0: seq<nat>, v0: Shared, mem0: map<nat, nat>)
      requires Untouched(refs0, all0, v0.given * given, mem0, heap.mem)
               && RunsUntouched(v0.runs, v0.large * large, mem0, heap.mem)
      ensures Kept(refs0, all0, v0, mem0)
    {
    }

    method TakeFree(t: nat, ptr: nat) returns (o: Outcome)
      requires Inv() && Enabled(Here(), Free(t, ptr))
      modifies this, heap
      ensures o != Panicked ==> Inv() && panicked == old(panicked) && !o.Gave?
      ensures o != Panicked ==> StepDoes(old(Now()), Free(t, ptr), o, Now())
      ensures o != Panicked ==> PoolMoves(old(Now()), Free(t, ptr), o, Now())
      ensures o != Panicked ==> Kept(old(heap.refs), old(heap.all), old(Here()), old(heap.mem))
      ensures o == Panicked ==> panicked
      ensures o == Panicked <==> ptr in old(given) && ptr in old(Trapped())
    {
      hide StepDoes, PoolMoves, Kept, Inv;
      NotBoth(ptr);
      if ptr in large {
        o := TakeLargeFree(t, ptr);
      } else {
        o := TakeSmallFree(t, ptr);
      }
    }

    /** No address is that of a large block and a small one. */
    lemma NotBoth(ptr: nat)
      requires Inv()
      ensures !(ptr in given && ptr in large)
      ensures Trapped() <= given
    {
      if ptr in given && ptr in large {
        hide *;
        UnfoldInv();
        var q := LiveBlock(heap, ptr);
        LargeOut(taken, runs, large, pending, ptr);
        WholePagesAreNotOurs(ptr);
        assert false;
      }
    }

    method TakeFreePages(t: nat) returns (o: Outcome)
      requires Inv() && Enabled(Here(), FreePages(t))
      modifies this, heap
      ensures Inv() && panicked == old(panicked)
      ensures StepDoes(old(Now()), FreePages(t), o, Now())
      ensures PoolMoves(old(Now()), FreePages(t), o, Now())
      ensures Kept(old(heap.refs), old(heap.all), old(Here()), old(heap.mem))
      ensures !o.Gave?
    {
      hide ThreadsOk, Roots, Untouched, HeldOk, PagesOk, ListsOk, BitsOk, RootsOk, WroteOnly, LargeOk, RunsUntouched;
      if pending[t].GivesRun? {
        o := RunBack(t);
      } else {
        o := PageBack(t);
      }
      NothingWritten(old(heap.refs), old(heap.all), old(given) * given, old(heap.mem));
      NoRunWritten(old(runs), old(large) * large, old(heap.mem));
    }

    /** One step of one thread. A small block it gets has room for what was asked, and was nobody's; no word of any
        block that stays with its caller is written; and it panics exactly in a kfree of the last block in use of a
        page whose descriptor cannot be given back. */
    method Step(e: Event) returns (o: Outcome)
      requires Inv() && Enabled(Here(), e)
      modifies this, heap
      ensures o == Panicked <==> e.Free? && e.ptr in old(given) && e.ptr in old(Trapped())
      ensures o == Panicked ==> panicked
      ensures o != Panicked ==> Inv() && panicked == old(panicked) && StepDoes(old(Now()), e, o, Now())
      ensures o != Panicked ==> PoolMoves(old(Now()), e, o, Now())
      ensures o != Panicked ==> Kept(old(heap.refs), old(heap.all), old(Here()), old(heap.mem))
      ensures o.Gave? && e.Malloc? ==> Served(e.sz, o.ptr, old(given))
      ensures o.Gave? && e.Relock?
              ==> && e.t in old(pending) && !old(pending)[e.t].GivesBack? && !old(pending)[e.t].GivesRun?
                                       && Served(old(pending)[e.t].sz, o.ptr, old(given))
    {
      hide StepDoes, PoolMoves, Kept, Inv, Served, Trapped, LargeOk;
      match e
      case Malloc(t, sz) =>
        o := TakeMalloc(t, sz);
        NoPanic(old(Now()), e, o, Now());
      case Large(t, sz, va) =>
        o := TakeLarge(t, sz, va);
        NoPanic(old(Now()), e, o, Now());
      case Pages(t, va) =>
        o := TakePages(t, va);
        NoPanic(old(Now()), e, o, Now());
      case Relock(t) =>
        o := TakeRelock(t);
        NoPanic(old(Now()), e, o, Now());
      case Free(t, ptr) => o := TakeFree(t, ptr);
      case FreePages(t) =>
        o := TakeFreePages(t);
        NoPanic(old(Now()), e, o, Now());
    }

    lemma HoldsPage(t: nat)
      requires Inv() && t in pending && (pending[t].HasPage? || pending[t].HasRoot? || pending[t].GaveSurplus?)
      ensures pending[t].page in heap.held && pending[t].page in taken
    {
      HeldBy(pending, heap.claimed, heap.held, heap.rootPage, t);
      What(pending[t], heap.rootPage);
    }

    /** Any sequence of steps, in any interleaving, from any state that keeps the invariant: every state on the
        way conserves pages, descriptors and blocks, and no block is given out that somebody has; unless the run
        ends in the one panic. */
    method Run(events: seq<Event>) returns (outcomes: seq<Outcome>, ghost views: seq<View>)
      requires Inv() && !panicked
      modifies this, heap
      ensures |outcomes| <= |events| && views != [] && views[0] == old(Now())
      ensures if panicked then PanicsAt(views, events, outcomes)
              else |outcomes| == |events| && |views| == |events| + 1 && views[|events|] == Now() && Inv()
      ensures forall i :: 0 <= i < |views| ==> Conserved(views[i])
      ensures forall i :: 0 <= i < |views| - 1 ==> Moved(views[i], events[i], outcomes[i], views[i + 1])
    {
      hide *;
      outcomes, views := [], [Now()];
      IsConserved();
      var i := 0;
      while i < |events| && !panicked
        invariant |views| - 1 <= |outcomes| == i <= |events| && views != [] && views[0] == old(Now())
        invariant if panicked then PanicsAt(views, events, outcomes)
                  else |views| == i + 1 && views[i] == Now() && Inv()
        invariant forall j :: 0 <= j < |views| ==> Conserved(views[j])
        invariant forall j :: 0 <= j < |views| - 1 ==> Moved(views[j], events[j], outcomes[j], views[j + 1])
      {
        var o := Skipped;
        ghost var before, can := Now(), Enabled(Here(), events[i]);
        AreNow();
        if Enabled(Here(), events[i]) {
          o := Step(events[i]);
        }
        outcomes := outcomes + [o];
        if o != Panicked {
          IsConserved();
          HasMoved(before, events[i], o, Now());
          views := views + [Now()];
        } else {
          HasPanicked(views, events, outcomes);
        }
        i := i + 1;
      }
    }

    lemma IsConserved()
      requires Inv()
      ensures Conserved(Now())
    {
      hide ThreadsOk, LargeOk, ListsOk, PagesOk, HeldOk, RootsOk, CountTrue;
      heap.UnfoldCore();
      forall r | 0 <= r < |heap.numinuse|
        ensures heap.numinuse[r] <= PER_PAGE
      {
        CountBound(heap.inuse[r]);
      }
    }
  }

  /** What a thread has in each state. */
  lemma What(s: Pending, rootPage: seq<nat>)
    requires |rootPage| == NROOTS
    ensures s.WantsPage? || s.HasPage? || s.GivesBack? || s.GivesRun? ==> Claim(s) == {}
    ensures s.WantsRoot? || s.HasRoot? || s.GaveSurplus? ==> Claim(s) == {s.p}
    ensures s.WantsPage? || s.GivesRun? ==> Owns(s) == {}
    ensures s.HasPage? || s.GivesBack? || s.GaveSurplus? || s.WantsRoot? ==> Owns(s) == {s.page}
    ensures s.HasRoot? ==> Owns(s) == if s.va != 0 then {s.page, s.va} else {s.page}
    ensures PER_PAGE > 0
    ensures Settled(s, rootPage)
            <==> (!s.GivesBack? && !s.GivesRun? ==> FitsBest(s.sz, s.b)) && (s.HasRoot? ==> s.va != s.page)
                                      && (s.GaveSurplus? ==> s.p < TOTAL && rootPage[s.p / PER_PAGE] != 0)
    ensures Grows(rootPage, rootPage)
  {
  }

  /** What a waiting thread has is held. */
  lemma HeldBy(pending: map<nat, Pending>, claimed: set<nat>, held: set<nat>, rootPage: seq<nat>, t: nat)
    requires ThreadsOk(pending, claimed, held, rootPage) && t in pending
    ensures Settled(pending[t], rootPage) && |rootPage| == NROOTS
    ensures ClaimOf(pending, t) == Claim(pending[t]) <= claimed && OwnsOf(pending, t) == Owns(pending[t]) <= held
  {
  }

  lemma NothingHeld(pending: map<nat, Pending>, t: nat)
    requires t !in pending
    ensures ClaimOf(pending, t) == OwnsOf(pending, t) == {}
  {
  }

  lemma TookLive(h: Heap, p: nat, ptr: nat, refs0: seq<PageRef>, chain0: map<nat, seq<nat>>, live0: set<nat>)
    requires h.Took(p, refs0, chain0, live0, ptr)
    ensures ptr !in live0 && h.live == live0 + {ptr}
  {
  }

  lemma UnfoldOnlyFreed(h: Heap, p: nat, ptr: nat, refs0: seq<PageRef>, mem0: map<nat, nat>)
    requires h.OnlyFreed(p, ptr, refs0, mem0)
    ensures p < |refs0| && BlockType(refs0[p]) < NSIZES && ptr in BlocksOf(refs0[p])
    ensures WroteOnly(mem0, h.mem, ptr, SizeOf(BlockType(refs0[p])))
  {
  }

  lemma UnfoldObtained(h: Heap, ptr: nat, b: blocktype, page: nat, live0: set<nat>)
    requires h.Obtained(ptr, b, page, live0)
    ensures page <= ptr < page + PAGE_SIZE
    ensures h.Allocated(ptr, b) && ptr !in live0 && h.live == live0 + {ptr}
  {
  }

  lemma UnfoldJustListed(h: Heap, p: nat, b: blocktype, page: nat)
    requires h.JustListed(p, b, page)
    ensures p in h.all && p < |h.refs| && PageAddr(h.refs[p]) == page && BlockType(h.refs[p]) == b
    ensures h.refs[p].nfree == CountOf(b) - 1
  {
  }

  /** A held page is neither listed nor a page of descriptors. */
  lemma HeldApart(h: Heap, g: nat)
    requires h.Valid() && g in h.held
    ensures g !in h.Listed() && g !in Roots(h.rootPage) && g != 0
  {
    h.UnfoldCore();
    hide ListsOk, PagesOk, BitsOk, PageAddr;
  }

  lemma ListedApart(h: Heap)
    requires h.Valid()
    ensures h.Listed() !! h.held && h.Listed() == ListedPages(h.refs, h.all)
  {
    h.UnfoldCore();
    hide ListsOk, PagesOk, BitsOk, PageAddr;
  }

  lemma HeldSizes(h: Heap, p: nat)
    requires h.Valid() && p in h.claimed
    ensures PER_PAGE > 0 && p < TOTAL && p / PER_PAGE < |h.rootPage| && 0 !in h.held
  {
    h.UnfoldCore();
    hide ListsOk, PagesOk, PageAddr;
  }

  lemma ToLists(held: set<nat>, held': set<nat>, listed: set<nat>, listed': set<nat>, roots: set<nat>, page: nat)
    requires page in held && held' == held - {page} && listed' == listed + {page}
    ensures held + listed + roots == held' + listed' + roots
  {
  }

  lemma ToBoth(held: set<nat>, held': set<nat>, listed: set<nat>, listed': set<nat>, roots: set<nat>, roots': set<nat>,
               page: nat, va: nat)
    requires page in held && held' == held - {page} - {va} && listed' == listed + {page} && (va != 0 ==> va in held)
    requires roots' == if va == 0 then roots else roots + {va}
    requires 0 !in held
    ensures held + listed + roots == held' + listed' + roots'
  {
  }

  lemma Without1(held: set<nat>, listed: set<nat>, roots: set<nat>, va: nat)
    requires va !in listed && va !in roots
    ensures held + listed + roots - {va} == held - {va} + listed + roots
  {
  }

  /** What a thread that asked for a page of descriptors has. */
  lemma RootHeld(h: Heap, pending: map<nat, Pending>, t: nat)
    requires h.Valid() && ThreadsOk(pending, h.claimed, h.held, h.rootPage) && t in pending && pending[t].HasRoot?
    ensures var s := pending[t];
            && s.p in h.claimed && s.p < TOTAL && s.page in h.held && s.va != s.page && FitsBest(s.sz, s.b)
            && (s.va != 0 ==> s.va in h.held && s.va !in h.Listed() && s.va !in Roots(h.rootPage))
            && PER_PAGE > 0 && s.p / PER_PAGE < |h.rootPage| == NROOTS && 0 !in h.held
  {
    hide *;
    HeldBy(pending, h.claimed, h.held, h.rootPage, t);
    What(pending[t], h.rootPage);
    HeldSizes(h, pending[t].p);
    if pending[t].va != 0 {
      HeldApart(h, pending[t].va);
    }
  }

  /** The page of descriptors is installed, or was there, and the thread has its block. */
  lemma RootUsed(pending: map<nat, Pending>, claimed: set<nat>, held: set<nat>, listed: set<nat>, rootPage: seq<nat>,
                 t: nat, claimed': set<nat>, held': set<nat>, listed': set<nat>, rootPage': seq<nat>)
    requires ThreadsOk(pending, claimed, held, rootPage) && t in pending && pending[t].HasRoot?
    requires var s := pending[t];
             && PER_PAGE > 0 && s.p / PER_PAGE < |rootPage| && 0 !in held
                && (s.va != 0 ==> rootPage[s.p / PER_PAGE] == 0)
             && claimed' == claimed - {s.p} && held' == held - {s.page} - {s.va} && listed' == listed + {s.page}
             && rootPage' == if s.va == 0 then rootPage else rootPage[s.p / PER_PAGE := s.va]
    ensures ThreadsOk(pending - {t}, claimed', held', rootPage')
    ensures held + listed + Roots(rootPage) == held' + listed' + Roots(rootPage')
  {
    hide *;
    var s := pending[t];
    HeldBy(pending, claimed, held, rootPage, t);
    What(s, rootPage);
    if s.va != 0 {
      RootsGain(rootPage, s.p / PER_PAGE, s.va);
    }
    Leaves(pending, claimed, held, rootPage, t, claimed', held', rootPage');
    ToBoth(held, held', listed, listed', Roots(rootPage), Roots(rootPage'), s.page, s.va);
  }

  /** There is no page of descriptors, or one too many. */
  lemma RootNotUsed(pending: map<nat, Pending>, claimed: set<nat>, held: set<nat>, rootPage: seq<nat>, t: nat,
                    s': Pending,
                    claimed': set<nat>, held': set<nat>)
    requires ThreadsOk(pending, claimed, held, rootPage) && t in pending && pending[t].HasRoot?
    requires var s := pending[t];
             && PER_PAGE > 0 && s.p < TOTAL && s.p / PER_PAGE < |rootPage| && 0 !in held
             && if s.va == 0 then s' == GivesBack(s.page) && claimed' == claimed - {s.p} && held' == held
                else && s' == GaveSurplus(s.sz, s.b, s.p, s.page) && rootPage[s.p / PER_PAGE] != 0
                     && claimed' == claimed && held' == held - {s.va}
    ensures ThreadsOk(pending[t := s'], claimed', held', rootPage)
  {
    hide *;
    HeldBy(pending, claimed, held, rootPage, t);
    What(pending[t], rootPage);
    What(s', rootPage);
    Moves(pending, claimed, held, rootPage, t, s', claimed', held', rootPage);
  }

  /** A live block is on one page, and on no freelist. */
  lemma LiveBlock(h: Heap, ptr: nat) returns (q: nat)
    requires h.Valid() && ptr in h.live
    ensures q in h.all && q < |h.refs| && ptr in BlocksOf(h.refs[q]) && InPage(h.refs[q], ptr)
    ensures forall p :: p in h.all && p < |h.refs| && InPage(h.refs[p], ptr) ==> p == q
    ensures forall p :: p in h.all && p in h.chain ==> ptr !in h.chain[p]
  {
    hide ListsOk, PageOk, BlocksOf, PageAddr, BitsOk, InPage;
    h.UnfoldCore();
    h.LiveNotFree(ptr);
    assert OnAPage(h.refs, h.all, ptr);
    q :| q in h.all && q < TOTAL && ptr in BlocksOf(h.refs[q]);
    BlockRange(h.refs[q], ptr);
    FoldInPage(h.refs[q], ptr);
    OnlyPage(h.refs, h.mem, h.all, h.chain, h.live, q, ptr);
  }

  /** A block is on one page only, so the condition is about that. */
  lemma PanicsIff(refs: seq<PageRef>, all: seq<nat>, numinuse: seq<nat>, rootPage: seq<nat>, p: nat, ptr: nat)
    requires p in all && p < |refs| && BlockType(refs[p]) < NSIZES && ptr in BlocksOf(refs[p])
    requires forall q :: q in all && q < |refs| && InPage(refs[q], ptr) ==> q == p
    ensures LastOnLeakyPage(refs, all, numinuse, rootPage, ptr) <==>
            refs[p].nfree + 1 == CountOf(BlockType(refs[p])) && LeakBefore(numinuse, rootPage, p / PER_PAGE)
  {
    hide BlockType, BlocksOf, LeakBefore, CountOf, InPage;
    if LastOnLeakyPage(refs, all, numinuse, rootPage, ptr) {
      var q :| q in all && q < |refs| && LeakyPage(refs, numinuse, rootPage, q, ptr);
      BlockRange(refs[q], ptr);
      FoldInPage(refs[q], ptr);
      assert q == p;
    }
    if refs[p].nfree + 1 == CountOf(BlockType(refs[p])) && LeakBefore(numinuse, rootPage, p / PER_PAGE) {
      assert LeakyPage(refs, numinuse, rootPage, p, ptr);
    }
  }

  // ----- large blocks

  lemma LargeOut(taken: set<nat>, runs: map<nat, nat>, large: set<nat>, pending: map<nat, Pending>, u: nat)
    requires LargeOk(taken, runs, large, pending) && u in large
    ensures u in runs
  {
  }

  lemma SharesItself(u: nat, n: nat, m: nat)
    ensures n > 0 && m > 0 ==> !NoneShared(u, n, u, m)
  {
  }

  lemma LargeGiven(taken: set<nat>, runs: map<nat, nat>, large: set<nat>, pending: map<nat, Pending>, va: nat, n: nat)
    requires LargeOk(taken, runs, large, pending) && FreshRun(va, n, taken, runs) && va != 0 && n > 0
    ensures LargeOk(taken, runs[va := n], large + {va}, pending)
  {
    SharesItself(va, n, if va in runs then runs[va] else 1);
    var runs' := runs[va := n];
    forall g | g in taken
      ensures Clear(runs', g)
    {
      assert Clear(runs, g) && NoneShared(va, n, g, 1);
    }
  }

  lemma LargeFreed(taken: set<nat>, runs: map<nat, nat>, large: set<nat>, pending: map<nat, Pending>, t: nat, ptr: nat)
    requires LargeOk(taken, runs, large, pending) && t !in pending && ptr in large
    ensures LargeOk(taken, runs, large - {ptr}, pending[t := GivesRun(ptr)])
  {
    hide NoneShared, Clear;
    var pending' := pending[t := GivesRun(ptr)];
    forall u | u in runs && u !in large - {ptr}
      ensures exists w :: w in pending' && pending'[w] == GivesRun(u)
    {
      if u == ptr {
        assert pending'[t] == GivesRun(u);
      } else {
        var w :| w in pending && pending[w] == GivesRun(u);
        assert w in pending' && pending'[w] == GivesRun(u);
      }
    }
  }

  lemma LargeBack(taken: set<nat>, runs: map<nat, nat>, large: set<nat>, pending: map<nat, Pending>, t: nat)
    requires LargeOk(taken, runs, large, pending) && t in pending && pending[t].GivesRun?
    ensures LargeOk(taken, runs - {pending[t].run}, large, pending - {t})
  {
    hide NoneShared;
    var runs', pending' := runs - {pending[t].run}, pending - {t};
    forall g | g in taken
      ensures Clear(runs', g)
    {
      assert Clear(runs, g);
    }
    forall u | u in runs' && u !in large
      ensures exists w :: w in pending' && pending'[w] == GivesRun(u)
    {
      var w :| w in pending && pending[w] == GivesRun(u);
      assert w in pending' && pending'[w] == GivesRun(u);
    }
  }

  lemma RunOk(taken: set<nat>, runs: map<nat, nat>, large: set<nat>, pending: map<nat, Pending>, u: nat)
    requires LargeOk(taken, runs, large, pending) && u in runs
    ensures 0 < u && u % PAGE_SIZE == 0 && 0 < runs[u]
    ensures forall v :: v in runs && v != u ==> NoneShared(u, runs[u], v, runs[v])
  {
    hide NoneShared, Clear;
  }

  /** What kfree writes is part of no other block, small or large. */
  lemma FreeWrites(refs: seq<PageRef>, all: seq<nat>, chain: map<nat, seq<nat>>, live: set<nat>, p: nat, ptr: nat,
                   v: Shared,
                   small: set<nat>, large: set<nat>, mem0: map<nat, nat>, mem: map<nat, nat>)
    requires PagesOk(refs, mem0, all, chain, live) && p in all && p < |refs| && BlockType(refs[p]) < NSIZES
    requires ptr in BlocksOf(refs[p]) && ptr !in small && WroteOnly(mem0, mem, ptr, SizeOf(BlockType(refs[p])))
    requires LargeOk(v.taken, v.runs, v.large, v.pending) && PageAddr(refs[p]) in v.taken
    ensures Untouched(refs, all, small, mem0, mem) && RunsUntouched(v.runs, large, mem0, mem)
  {
    assert NSIZES == 8;
    hide *;
    FreedOnly(refs, all, chain, live, p, ptr, small, mem0, mem);
    BlockInside(refs[p], ptr);
    RunsClear(v.taken, v.runs, v.large, v.pending, PageAddr(refs[p]));
    RunsAway(v.runs, large, PageAddr(refs[p]), ptr, SizeOf(BlockType(refs[p])), mem0, mem);
  }

  /** A page of the heap is apart from every run. */
  lemma PageClear(taken: set<nat>, runs: map<nat, nat>, large: set<nat>, pending: map<nat, Pending>, g: nat, u: nat)
    requires LargeOk(taken, runs, large, pending) && g in taken && u in runs
    ensures g + PAGE_SIZE <= u || u + runs[u] * PAGE_SIZE <= g
  {
    assert Clear(runs, g);
    assert NoneShared(g, 1, u, runs[u]);
  }

  lemma RunsClear(taken: set<nat>, runs: map<nat, nat>, large: set<nat>, pending: map<nat, Pending>, g: nat)
    requires LargeOk(taken, runs, large, pending) && g in taken
    ensures forall u :: u in runs ==> g + PAGE_SIZE <= u || u + runs[u] * PAGE_SIZE <= g
  {
    hide LargeOk;
    forall u | u in runs
      ensures g + PAGE_SIZE <= u || u + runs[u] * PAGE_SIZE <= g
    {
      PageClear(taken, runs, large, pending, g, u);
    }
  }

  lemma RunNotIn(pr: PageRef, taken: set<nat>, runs: map<nat, nat>, large: set<nat>, pending: map<nat, Pending>, u: nat)
    requires LargeOk(taken, runs, large, pending) && u in runs && PageAddr(pr) in taken
    ensures !InPage(pr, u)
  {
    hide LargeOk, PageAddr;
    PageClear(taken, runs, large, pending, PageAddr(pr), u);
    RunOk(taken, runs, large, pending, u);
    AddrAligned(pr);
  }

  lemma InListed(refs: seq<PageRef>, all: seq<nat>, q: nat)
    requires q in all && q < |refs|
    ensures PageAddr(refs[q]) in ListedPages(refs, all)
  {
  }

  lemma InRoots(rootPage: seq<nat>, r: nat)
    requires r < |rootPage| && rootPage[r] != 0
    ensures rootPage[r] in Roots(rootPage)
  {
  }

  lemma FoldNoneShared(g: nat, u: nat, n: nat)
    requires g + PAGE_SIZE <= u || u + n * PAGE_SIZE <= g
    ensures NoneShared(g, 1, u, n)
  {
  }

  // ----- the first kmalloc

  /** It needs a page and a page of descriptors, and with both it gets its block. */
  method FirstKmalloc() returns (s: System, o: Outcome)
    ensures fresh(s) && s.Inv() && o.Gave? && s.given == {o.ptr} && s.pending == map[]
  {
    hide *;
    s := new System();
    s.AreNow();
    CanAsk(s.Here());
    ghost var w := s.Now();
    o := s.Step(Malloc(0, 100));
    s.AreNow();
    AskedPage(w, o, s.Now());
    w := s.Now();
    o := s.Step(Pages(0, 4096));
    s.AreNow();
    GotPage(w, o, s.Now());
    w := s.Now();
    o := s.Step(Relock(0));
    s.AreNow();
    AskedRoot(w, o, s.Now());
    w := s.Now();
    o := s.Step(Pages(0, 8192));
    s.AreNow();
    GotRoot(w, o, s.Now());
    w := s.Now();
    o := s.Step(Relock(0));
    s.AreNow();
    GotBlock(w, o, s.Now());
  }

  /** The first thread has come to this, with these pages, and there is no page of descriptors. */
  ghost predicate Alone(v: Shared, p: Pending, taken: set<nat>) {
    v == Shared(map[0 := p], taken, {}, map[], {})
  }

  ghost predicate NoRoots(w: View) {
    |w.numinuse| == NROOTS == 16 && w.rootPage == seq(NROOTS, r => 0) && w.numinuse[0] < PER_PAGE
  }

  lemma CanAsk(v: Shared)
    requires v == Shared(map[], {}, {}, map[], {})
    ensures Enabled(v, Malloc(0, 100))
  {
  }

  lemma AskedPage(w: View, o: Outcome, w': View)
    requires StepDoes(w, Malloc(0, 100), o, w') && PoolMoves(w, Malloc(0, 100), o, w')
    requires w.s == Shared(map[], {}, {}, map[], {}) && w.numinuse == w.rootPage == seq(NROOTS, r => 0)
    requires forall b: nat :: b in w.full <==> b < NSIZES
    ensures exists b: blocktype :: Alone(w'.s, WantsPage(100, b), {})
    ensures NoRoots(w') && o != Panicked && Enabled(w'.s, Pages(0, 4096))
  {
    assert FitsBest(100, 3);
  }

  lemma GotPage(w: View, o: Outcome, w': View)
    requires StepDoes(w, Pages(0, 4096), o, w') && PoolMoves(w, Pages(0, 4096), o, w')
    requires NoRoots(w) && exists b: blocktype :: Alone(w.s, WantsPage(100, b), {})
    ensures exists b: blocktype :: Alone(w'.s, HasPage(100, b, 4096), {4096})
    ensures NoRoots(w') && o != Panicked && Enabled(w'.s, Relock(0))
  {
    var b: blocktype :| Alone(w.s, WantsPage(100, b), {});
    assert Alone(w'.s, HasPage(100, b, 4096), {4096});
  }

  lemma AskedRoot(w: View, o: Outcome, w': View)
    requires StepDoes(w, Relock(0), o, w') && PoolMoves(w, Relock(0), o, w')
    requires NoRoots(w) && exists b: blocktype :: Alone(w.s, HasPage(100, b, 4096), {4096})
    ensures exists b: blocktype, p: nat ::
              Alone(w'.s, WantsRoot(100, b, p, 4096), {4096}) && PageOfRoot(w'.rootPage, p) == 0
    ensures o != Panicked && Enabled(w'.s, Pages(0, 8192))
  {
    var b: blocktype :| Alone(w.s, HasPage(100, b, 4096), {4096});
    assert !DescriptorAtHand(w.numinuse, w.rootPage) && !RootsFull(w.numinuse);
    var p := w'.s.pending[0].p;
    assert Alone(w'.s, WantsRoot(100, b, p, 4096), {4096});
  }

  lemma GotRoot(w: View, o: Outcome, w': View)
    requires StepDoes(w, Pages(0, 8192), o, w') && PoolMoves(w, Pages(0, 8192), o, w')
    requires exists b: blocktype, p: nat ::
               Alone(w.s, WantsRoot(100, b, p, 4096), {4096}) && PageOfRoot(w.rootPage, p) == 0
    ensures exists b: blocktype, p: nat ::
              Alone(w'.s, HasRoot(100, b, p, 4096, 8192), {4096, 8192}) && PageOfRoot(w'.rootPage, p) == 0
    ensures o != Panicked && Enabled(w'.s, Relock(0))
  {
    var b: blocktype, p: nat :|
      Alone(w.s, WantsRoot(100, b, p, 4096), {4096}) && PageOfRoot(w.rootPage, p) == 0;
    assert Alone(w'.s, HasRoot(100, b, p, 4096, 8192), {4096, 8192}) && PageOfRoot(w'.rootPage, p) == 0;
  }

  lemma GotBlock(w: View, o: Outcome, w': View)
    requires StepDoes(w, Relock(0), o, w')
    requires exists b: blocktype, p: nat ::
               Alone(w.s, HasRoot(100, b, p, 4096, 8192), {4096, 8192}) && PageOfRoot(w.rootPage, p) == 0
    ensures o.Gave? && w'.s.given == {o.ptr} && w'.s.pending == map[]
  {
    var b: blocktype, p: nat :|
      Alone(w.s, HasRoot(100, b, p, 4096, 8192), {4096, 8192}) && PageOfRoot(w.rootPage, p) == 0;
  }

  // ----- a kfree that panics

  /** No caller does anything wrong here. Each time a page of descriptors cannot be had, allocpageref
      leaves a bit set; after 256 such failures the first root is full and has no page, the next
      descriptor comes from the second root, and giving that descriptor back trips the assertion
      that a root without a page has no bit set. */
  method LeakedRootPanics() returns (r: Freeing)
    ensures r == Panic
  {
    hide *;
    var h := new Heap();
    NoneLeaked(h);
    var i := 0;
    while i < 256
      invariant 0 <= i <= 256 && Leaked(h, i)
    {
      UnfoldLeaked(h, i);
      var a, q := h.SubpageAllocate(7);
      h.TakeKPage(4096);
      ghost var numinuse0 := h.numinuse;
      a := h.AddPage(7, 4096);
      NoRootHasPage(numinuse0, h.numinuse, h.rootPage);
      NextInRoot(numinuse0, h.numinuse, a.pr / PER_PAGE, i);
      a := h.RootPageArrived(a.pr, 7, 4096, 0);
      h.GiveKPage(4096);
      FoldLeaked(h, i + 1);
      i := i + 1;
    }
    UnfoldLeaked(h, 256);
    var a, q := h.SubpageAllocate(7);
    h.TakeKPage(4096);
    ghost var numinuse0, rootPage0 := h.numinuse, h.rootPage;
    a := h.AddPage(7, 4096);
    NoRootHasPage(numinuse0, h.numinuse, h.rootPage);
    NextInRoot(numinuse0, h.numinuse, a.pr / PER_PAGE, 256);
    h.TakeKPage(8192);
    var p := a.pr;
    a := h.RootPageArrived(p, 7, 4096, 8192);
    UnfoldObtained(h, a.ptr, 7, 4096, {});
    UnfoldJustListed(h, p, 7, 4096);
    q := LiveBlock(h, a.ptr);
    FoldInPage(h.refs[p], a.ptr);
    StillLeaked(h.numinuse, rootPage0, h.rootPage, p);
    h.UnfoldCore();
    InPool(h.refs, h.mem, h.all, h.chain, h.live, p);
    UnfoldPanics(h.refs, h.chain, h.numinuse, h.rootPage, p, a.ptr);
    r, q := h.SubpageFree(a.ptr);
  }

  /** After i allocations that found no page of descriptors. */
  ghost predicate Leaked(h: Heap, i: nat)
    reads h
  {
    && h.Valid() && h.all == [] && h.live == h.claimed == h.held == h.Listed() == {}
    && h.rootPage == seq(NROOTS, r => 0)
    && |h.numinuse| == NROOTS && h.numinuse[0] == i && forall r :: 0 < r < NROOTS ==> h.numinuse[r] == 0
  }

  lemma UnfoldLeaked(h: Heap, i: nat)
    requires Leaked(h, i)
    ensures h.Valid() && h.all == [] && h.live == h.claimed == h.held == h.Listed() == {}
    ensures |h.rootPage| == |h.numinuse| == NROOTS == 16 && PER_PAGE == 256 && PAGE_SIZE == 4096
    ensures forall r :: 0 <= r < NROOTS ==> h.rootPage[r] == 0
    ensures h.numinuse[0] == i && h.numinuse[1] == 0 && forall r :: 0 < r < NROOTS ==> h.numinuse[r] == 0
    ensures TypeFull(h.refs, h.all, 7) && CountOf(7) == 2 && !RootsFull(h.numinuse)
  {
  }

  lemma NoneLeaked(h: Heap)
    requires h.Valid() && h.all == [] && h.live == h.claimed == h.held == {} && h.Listed() == {}
    requires h.rootPage == seq(NROOTS, i => 0) && h.numinuse == seq(NROOTS, i => 0)
    ensures Leaked(h, 0)
  {
  }

  lemma FoldLeaked(h: Heap, i: nat)
    requires h.Valid() && h.all == [] && h.live == h.claimed == h.held == h.Listed() == {}
    requires |h.rootPage| == |h.numinuse| == NROOTS && h.numinuse[0] == i
    requires forall r :: 0 <= r < NROOTS ==> h.rootPage[r] == 0
    requires forall r :: 0 < r < NROOTS ==> h.numinuse[r] == 0
    ensures Leaked(h, i)
  {
  }

  lemma NoRootHasPage(numinuse0: seq<nat>, numinuse: seq<nat>, rootPage: seq<nat>)
    requires |rootPage| == NROOTS && forall r :: 0 <= r < NROOTS ==> rootPage[r] == 0
    ensures !RootHadPage(numinuse0, numinuse, rootPage)
  {
  }

  /** The bit set next is in the first root until that is full, and then in the second. */
  lemma NextInRoot(numinuse0: seq<nat>, numinuse: seq<nat>, r: nat, i: nat)
    requires FirstRoot(numinuse0, numinuse, r) && |numinuse0| == NROOTS && i <= PER_PAGE
    requires numinuse0[0] == i && numinuse0[1] == 0 && forall k :: 0 < k < NROOTS ==> numinuse0[k] == 0
    ensures r == if i < PER_PAGE then 0 else 1
    ensures |numinuse| == NROOTS && numinuse[0] == if i < PER_PAGE then i + 1 else i
    ensures i < PER_PAGE ==> forall k :: 0 < k < NROOTS ==> numinuse[k] == 0
  {
  }

  lemma StillLeaked(numinuse: seq<nat>, rootPage0: seq<nat>, rootPage: seq<nat>, p: nat)
    requires |numinuse| == |rootPage0| == NROOTS && p / PER_PAGE == 1 && rootPage0[0] == 0 && numinuse[0] == 256
    requires rootPage == rootPage0[p / PER_PAGE := 8192]
    ensures LeakBefore(numinuse, rootPage, p / PER_PAGE)
  {
    assert rootPage[0] == 0 && numinuse[0] != 0;
  }

  // ----- the size of a large block

  /** The pages cover the request, with less than a page to spare, exactly when the rounding up
      does not wrap around; when it does, kmalloc asks for no page at all. */
  lemma PagesCover(sz: word)
    ensures sz <= PagesFor(sz) * PAGE_SIZE <==> sz <= 0x1_0000_0000 - PAGE_SIZE
    ensures sz <= 0x1_0000_0000 - PAGE_SIZE ==> PagesFor(sz) * PAGE_SIZE < sz + PAGE_SIZE
    ensures sz > 0x1_0000_0000 - PAGE_SIZE ==> PagesFor(sz) == 0
  {
    if sz <= 0x1_0000_0000 - PAGE_SIZE {
    } else {
    }
  }

  /** The largest request there is gets no page. */
  lemma LargestRequest()
    ensures PagesFor(0xffff_ffff) == 0
  {
  }
}
