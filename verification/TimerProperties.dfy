/** What holds of timers over whole runs: ownership, expiry, cancellation, and the armed timerfd. */
module TimerProperties {
  import opened Numbers
  import opened SortedEntries
  import opened TimerModel

  lemma StartIsGood(clock: int)
    ensures Inv(Start(clock))
  {}

  /** A queue made at the given clock, after these actions. */
  function After(clock: int, acts: seq<Action>): (s: State)
    ensures Inv(s)
  {
    StartIsGood(clock);
    Run(Start(clock), acts)
  }

  // ---------------------------------------------------------------------
  // Ownership and index agreement
  // ---------------------------------------------------------------------

  lemma {:induction false} SizesAgree(heap: map<nat, Timer>, timers: seq<Entry>, active: set<ActiveTimer>)
    requires EntriesFit(heap, timers) && IndexesAgree(heap, timers, active)
    ensures |timers| == |active|
  {
    if timers == [] {
      assert active == {};
    } else {
      var first := timers[0];
      ActivesSplit(heap, timers, active, 1);
      SplitSorted(timers, 1);
      var rest := active - ActivesOf(heap, timers[..1]);
      assert timers[..1] == [first];
      assert ActivesOf(heap, timers[..1]) == {ActiveOf(heap, first.addr)};
      assert active == rest + {ActiveOf(heap, first.addr)};
      SizesAgree(heap, timers[1..], rest);
    }
  }

  /** The three places a live timer can be in. */
  predicate InQueue(s: State, a: nat) { a in s.queued }
  predicate InIndexes(s: State, a: nat)
    requires a in s.heap
  {
    EntryOf(s.heap, a) in s.timers && ActiveOf(s.heap, a) in s.active
  }
  predicate InBatch(s: State, a: nat)
    requires a in s.heap
  {
    EntryOf(s.heap, a) in Collected(s)
  }

  /**
   * In every state of every run, callbacks that add and cancel included: the indexes hold the same
   * timers, each keyed by its expiration, and each live timer is in exactly one of its three places.
   */
  lemma EveryTimerHasOneOwner(clock: int, acts: seq<Action>)
    ensures var s := After(clock, acts);
            && |s.timers| == |s.active| && Sorted(s.timers)
            && (forall e | e in s.timers + Collected(s) :: e.addr in s.heap && s.heap[e.addr].expiration == e.when)
            && (forall t | t in s.active :: t.addr in s.heap && s.heap[t.addr].sequence == t.sequence)
            && s.queued <= s.heap.Keys
            && forall a | a in s.heap ::
                 && (InQueue(s, a) || InIndexes(s, a) || InBatch(s, a))
                 && !(InQueue(s, a) && InIndexes(s, a))
                 && !(InQueue(s, a) && InBatch(s, a))
                 && !(InIndexes(s, a) && InBatch(s, a))
  {
    var s := After(clock, acts);
    SizesAgree(s.heap, s.timers, s.active);
  }

  // ---------------------------------------------------------------------
  // No starved timer
  // ---------------------------------------------------------------------

  /** Between batches, the timerfd is not armed for the first timer. */
  predicate Starved(s: State) { s.phase.Idle? && !ArmedForFirst(s) }

  /** Some batch of the run ended with reset declining to arm for a first timer not armed for already. */
  ghost predicate ArmingSkipped(clock: int, acts: seq<Action>) {
    exists i :: SkipsAt(clock, acts, i)
  }

  ghost predicate SkipsAt(clock: int, acts: seq<Action>, i: nat) {
    i < |acts| && SkipsNow(After(clock, acts[..i]), acts[i])
  }

  predicate SkipsNow(s: State, a: Action)
    requires Inv(s)
  {
    a.Finish? && Enabled(s, a) && Skips(s)
  }

  lemma StepStarves(s: State, a: Action)
    requires Inv(s) && !Starved(s)
    ensures Starved(Do(s, a)) <==> SkipsNow(s, a)
  {
    hide Inv, Do, Starved, SkipsNow;
    if !s.phase.Batch? {
      IdleStepKeepsArmed(s, a);
    } else if a.Finish? && Enabled(s, a) {
      FinishStarves(s, a);
    } else {
      BatchIsFixed(s, a);
      BatchStarvesNone(s, Do(s, a), a);
    }
  }

  lemma BatchStarvesNone(s: State, t: State, a: Action)
    requires Inv(s) && t.phase.Batch? && !(a.Finish? && Enabled(s, a))
    ensures !Starved(t) && !SkipsNow(s, a)
  {}

  lemma FinishStarves(s: State, a: Action)
    requires Inv(s) && a.Finish? && Enabled(s, a)
    ensures Starved(Do(s, a)) <==> SkipsNow(s, a)
  {
    hide Owned, EndRead, Skips, ArmedForFirst, PhaseFits, LogFits, OncePerBatch;
    EndReadArms(s);
  }

  lemma IdleStepKeepsArmed(s: State, a: Action)
    requires Inv(s) && s.phase.Idle? && !Starved(s)
    ensures !Starved(Do(s, a)) && !SkipsNow(s, a)
  {
    hide AddInLoop, CancelInLoop, BeginRead, EndRead, Allocate, RunNext, ArmedForFirst, Owned, PhaseFits;
    hide LogFits, OncePerBatch;
    if Enabled(s, a) {
      match a
      case RunPosted(addr) => AddKeepsArmed(s, addr);
      case AddNow(addr, when, interval, repeat) =>
        AllocateKeeps(s, addr, when, interval, repeat);
        AllocateQueues(s, addr, when, interval, repeat);
        AllocateKeepsArmed(s, addr, when, interval, repeat);
        AddKeepsArmed(Allocate(s, addr, when, interval, repeat), addr);
      case Post(addr, when, interval, repeat) => AllocateKeepsArmed(s, addr, when, interval, repeat);
      case Cancel(id) => CancelKeepsArmed(s, id);
      case Tick(d) => TickKeepsArmed(s, d);
      case Collect => CollectIsBatch(s);
      case _ =>
    }
  }

  lemma AllocateKeepsArmed(s: State, addr: nat, when: int, interval: int, repeat: bool)
    ensures var t := Allocate(s, addr, when, interval, repeat);
            t.phase == s.phase && (ArmedForFirst(s) ==> ArmedForFirst(t))
  {}

  lemma TickKeepsArmed(s: State, d: nat)
    ensures ArmedForFirst(s) ==> ArmedForFirst(s.(clock := s.clock + d))
  {}

  lemma CollectIsBatch(s: State)
    requires Inv(s) && s.phase.Idle?
    ensures BeginRead(s).phase.Batch?
  {}

  lemma AddKeepsArmed(s: State, addr: nat)
    requires Inv(s) && addr in s.queued && ArmedForFirst(s)
    ensures addr in s.heap && ArmedForFirst(AddInLoop(s, addr))
  {
    AddOwned(s, Collected(s), addr);
    InsertSorted(s.timers, EntryOf(s.heap, addr));
  }

  lemma CancelKeepsArmed(s: State, id: ActiveTimer)
    requires Inv(s) && ArmedForFirst(s)
    ensures id in s.active ==> id.addr in s.heap
    ensures ArmedForFirst(CancelInLoop(s, id))
  {
    CancelOwned(s, Collected(s), id);
    if id in s.active { EraseSorted(s.timers, EntryOf(s.heap, id.addr)); }
  }

  /** No timer is starved anywhere in a run exactly when no batch ended so. */
  lemma {:induction false} NeverStarved(clock: int, acts: seq<Action>)
    ensures (forall k :: 0 <= k <= |acts| ==> !Starved(After(clock, acts[..k]))) <==> !ArmingSkipped(clock, acts)
  {
    hide Run, Starved, SkipsNow;
    if i :| SkipsAt(clock, acts, i) {
      SkipStarves(clock, acts, i);
    } else {
      forall k | 0 <= k <= |acts|
        ensures !Starved(After(clock, acts[..k]))
      {
        ArmedSoFar(clock, acts, k);
      }
    }
  }

  lemma SkipStarves(clock: int, acts: seq<Action>, i: nat)
    requires SkipsAt(clock, acts, i)
    ensures Starved(After(clock, acts[..i + 1]))
  {
    assert acts[..i + 1][..i] == acts[..i];
    FinishStarves(After(clock, acts[..i]), acts[i]);
    hide Do, Starved, SkipsNow, Inv;
  }

  lemma LateBatchesArm(s: State, a: Action)
    requires Inv(s) && (s.phase.Batch? ==> s.phase.now > 0)
    ensures !SkipsNow(s, a)
  {
    hide Owned, EndRead, Skips, ArmedForFirst, PhaseFits, LogFits, OncePerBatch;
    if s.phase.Batch? { EndReadArms(s); }
  }

  lemma {:induction false} ArmedSoFar(clock: int, acts: seq<Action>, k: nat)
    requires k <= |acts| && !ArmingSkipped(clock, acts)
    ensures !Starved(After(clock, acts[..k]))
  {
    if k > 0 {
      ArmedSoFar(clock, acts, k - 1);
      assert acts[..k][..k - 1] == acts[..k - 1];
      StepStarves(After(clock, acts[..k - 1]), acts[k - 1]);
      assert !SkipsAt(clock, acts, k - 1);
      hide Starved, SkipsNow, Do;
    }
  }

  /**
   * What that means: the timerfd is set for no later than any timer, or 100us after the latest arming,
   * and once a timer is overdue and those 100us are over, its descriptor has fired.
   */
  lemma OverdueHasFired(s: State, e: Entry)
    requires Inv(s) && s.phase.Idle? && !Starved(s) && e in s.timers
    ensures s.armed <= s.clock && s.fd.Some? && s.fd.value <= Max(e.when, s.armed + 100)
    ensures e.when <= s.clock && s.armed + 100 <= s.clock ==> s.fd.value <= s.clock
  {
    var i :| 0 <= i < |s.timers| && s.timers[i] == e;
    assert i > 0 ==> Less(s.timers[0], s.timers[i]);
  }

  /** Every batch of the run was collected after 1970. */
  ghost predicate BatchesAfter1970(clock: int, acts: seq<Action>) {
    forall i :: 0 <= i < |acts| && acts[i].Collect? ==> CollectedAfter1970(After(clock, acts[..i]))
  }

  predicate CollectedAfter1970(s: State) { s.phase.Idle? ==> s.clock > 0 }

  /** Then none ends so: with the clock of any running system, no timer is starved. */
  lemma NotStarvedAfter1970(clock: int, acts: seq<Action>)
    requires BatchesAfter1970(clock, acts)
    ensures !ArmingSkipped(clock, acts) && !Starved(After(clock, acts))
  {
    hide Starved, SkipsNow, Do, Inv, BatchesAfter1970;
    forall i | 0 <= i < |acts|
      ensures !SkipsAt(clock, acts, i)
    {
      BatchIsAfter1970(clock, acts, i);
      LateBatchesArm(After(clock, acts[..i]), acts[i]);
    }
    ArmedSoFar(clock, acts, |acts|);
    assert acts[..|acts|] == acts;
  }

  lemma {:induction false} BatchIsAfter1970(clock: int, acts: seq<Action>, k: nat)
    requires k <= |acts| && BatchesAfter1970(clock, acts)
    ensures var s := After(clock, acts[..k]); s.phase.Batch? ==> s.phase.now > 0
  {
    if k > 0 {
      BatchIsAfter1970(clock, acts, k - 1);
      assert acts[..k][..k - 1] == acts[..k - 1];
      BatchTime(After(clock, acts[..k - 1]), acts[k - 1]);
    }
  }

  /** A batch keeps the time at which it was collected. */
  lemma BatchTime(s: State, a: Action)
    requires Inv(s)
    ensures var t := Do(s, a);
            t.phase.Batch? ==>
              if s.phase.Batch? then t.phase.now == s.phase.now else a.Collect? && t.phase.now == s.clock
  {
    if s.phase.Batch? && !(a.Finish? && Enabled(s, a)) { BatchIsFixed(s, a); }
  }

  /** Before 1970 it happens: from any clock 100us before it, a periodic timer that is due at once. */
  lemma StarvedBefore1970(clock: int)
    requires clock <= -100
    ensures var acts := [AddNow(0, clock, 0, true), Tick(100), Collect, Fire, Finish];
            Starved(After(clock, acts))
  {
    hide Do, Run, Starved, Inv, AfterReset, ArmedFor;
    var a := AddNow(0, clock, 0, true);
    var e := Entry(clock, 0);
    AddOnly(clock);
    AfterOneMore(clock, [], a);
    AfterOneMore(clock, [a], Tick(100));
    AfterOneMore(clock, [a, Tick(100)], Collect);
    AfterOneMore(clock, [a, Tick(100), Collect], Fire);
    AfterOneMore(clock, [a, Tick(100), Collect, Fire], Finish);
    assert [] + [a] == [a] && [a] + [Tick(100)] == [a, Tick(100)];
    assert [a, Tick(100)] + [Collect] == [a, Tick(100), Collect];
    assert [a, Tick(100), Collect] + [Fire] == [a, Tick(100), Collect, Fire];
    assert [a, Tick(100), Collect, Fire] + [Finish] == [a, Tick(100), Collect, Fire, Finish];
    var s2, s4 := After(clock, [a, Tick(100)]), After(clock, [a, Tick(100), Collect, Fire]);
    TickOnly(After(clock, [a]), 100);
    CollectOne(s2, e);
    FireOnly(After(clock, [a, Tick(100), Collect]), clock + 100, e);
    ResetOnly(s4, e);
    FinishStarves(s4, Finish);
    assert s4.fd == None && !ArmedFor(s4, clock + 100) by { NoneIsUnarmed(s4, clock + 100); }
  }

  lemma RunOneMore(s: State, acts: seq<Action>, a: Action)
    requires Inv(s)
    ensures Run(s, acts + [a]) == Do(Run(s, acts), a)
  {
    assert (acts + [a])[..|acts|] == acts;
  }

  lemma AfterOneMore(clock: int, acts: seq<Action>, a: Action)
    ensures After(clock, acts + [a]) == Do(After(clock, acts), a)
  {
    RunOneMore(Start(clock), acts, a);
  }

  lemma NoneIsUnarmed(s: State, when: int)
    requires s.fd == None
    ensures !ArmedFor(s, when)
  {}

  lemma AddOnly(clock: int)
    ensures var s := Do(After(clock, []), AddNow(0, clock, 0, true));
            && s.timers == [Entry(clock, 0)] && s.fd == Some(clock + 100) && s.clock == clock && s.phase.Idle?
            && s.heap == map[0 := Timer(clock, 0, true, 1)]
  {
    assert Insert([], Entry(clock, 0)) == [Entry(clock, 0)];
  }

  lemma TickOnly(s: State, d: nat)
    requires Inv(s)
    ensures Do(s, Tick(d)) == s.(clock := s.clock + d)
  {}

  lemma FireOnly(s: State, now: int, e: Entry)
    requires Inv(s) && s.phase == Batch(now, [e], 0)
    ensures var t := Do(s, Fire);
            && t.phase == Batch(now, [e], 1) && t.fd == s.fd && t.timers == s.timers
            && t.heap == s.heap && t.canceling == s.canceling
  {}

  /** Collecting the only timer, due and fired. */
  lemma CollectOne(s: State, e: Entry)
    requires Inv(s) && s.phase.Idle? && s.timers == [e] && e.when <= s.clock && e.addr < UINTPTR_MAX
    requires s.fd.Some? && s.fd.value <= s.clock
    ensures var t := Do(s, Collect);
            t.phase == Batch(s.clock, [e], 0) && t.fd == None && t.timers == [] && t.heap == s.heap && t.canceling == {}
  {
    assert LowerBound(s.timers, Entry(s.clock, UINTPTR_MAX)) == 1;
    assert s.timers[..1] == [e] && s.timers[1..] == [];
  }

  /** Resetting a batch of one periodic timer. */
  lemma ResetOnly(s: State, e: Entry)
    requires Inv(s) && s.phase.Batch? && s.phase.expired == [e] && s.timers == [] && s.canceling == {}
    requires e.addr in s.heap && s.heap[e.addr].repeat
    ensures AfterReset(s).timers == [Entry(s.phase.now + s.heap[e.addr].interval, e.addr)]
  {
    var s0 := s.(calling := false);
    ResetOwned(s0, [e], s.phase.now);
    var t := ResetOne(s0, e, s.phase.now);
    assert [e][1..] == [] && ResetAll(t, [], s.phase.now) == t;
    var again := Entry(s.phase.now + s.heap[e.addr].interval, e.addr);
    assert Insert([], again) == [again];
  }

  // ---------------------------------------------------------------------
  // Expiry
  // ---------------------------------------------------------------------

  lemma CollectTimers(s: State)
    requires Inv(s) && Enabled(s, Collect)
    ensures Sorted(s.timers)
    ensures var k, t := ExpiredCount(s, s.clock), Do(s, Collect);
            t.phase.Batch? && t.phase.expired == s.timers[..k] && t.timers == s.timers[k..]
  {}

  lemma InTimeOrder(es: seq<Entry>)
    requires Sorted(es)
    ensures forall i, j :: 0 <= i < j < |es| ==> es[i].when <= es[j].when
  {
    assert forall i, j :: 0 <= i < j < |es| ==> Less(es[i], es[j]);
  }

  /** A batch is the timers due now, in time order, and leaves only later ones. */
  lemma BatchIsExact(s: State)
    requires Inv(s) && Enabled(s, Collect)
    ensures var t := Do(s, Collect);
            && s.timers == t.phase.expired + t.timers
            && (forall e | e in s.timers :: e in t.phase.expired <==> e.when <= s.clock)
            && (forall e | e in t.timers :: s.clock < e.when)
            && (forall i, j :: 0 <= i < j < |t.phase.expired| ==> t.phase.expired[i].when <= t.phase.expired[j].when)
  {
    hide Do, Owned, PhaseFits, LogFits, OncePerBatch, LowerBound;
    var k := ExpiredCount(s, s.clock);
    CollectTimers(s);
    CollectSplits(s, s.clock);
    SplitSorted(s.timers, k);
    assert s.timers == s.timers[..k] + s.timers[k..];
    InTimeOrder(s.timers[..k]);
    hide Sorted;
  }

  /** Nothing a callback does, not even adding a timer already due, changes the running batch. */
  lemma BatchIsFixed(s: State, a: Action)
    requires Inv(s) && s.phase.Batch? && !(a.Finish? && Enabled(s, a))
    ensures var t := Do(s, a);
            && t.phase.Batch? && t.phase.expired == s.phase.expired && t.phase.now == s.phase.now
            && t.batches == s.batches
  {}

  lemma {:induction false} ResetOutcome(s: State, es: seq<Entry>, now: int)
    requires Owned(s, es)
    ensures var t := ResetAll(s, es, now);
            && (forall e | e in es :: e.addr in s.heap && Outcome(s, t.heap, e.addr, now))
            && (forall a | a in s.heap && EntryOf(s.heap, a) !in es :: a in t.heap && t.heap[a] == s.heap[a])
            && t.heap.Keys <= s.heap.Keys
    decreases es
  {
    hide Owned, Outcome, ResetOne;
    if es != [] {
      FirstApart(s, es);
      ResetOwned(s, es, now);
      ResetFirst(s, es, now);
      var e, rest, u := es[0], es[1..], ResetOne(s, es[0], now);
      var t := ResetAll(s, es, now);
      ResetOutcome(u, rest, now);
      assert e.addr in u.heap ==> EntryOf(u.heap, e.addr) !in rest;
      forall x | x in es
        ensures x.addr in s.heap && Outcome(s, t.heap, x.addr, now)
      {
        if x == e { OutcomeOfFirst(s, u, t.heap, e.addr, now); } else { SameOutcome(s, u, t.heap, x.addr, now); }
      }
      forall a | a in s.heap && EntryOf(s.heap, a) !in es
        ensures a in t.heap && t.heap[a] == s.heap[a]
      {
        assert a != e.addr;
        assert a in u.heap && EntryOf(u.heap, a) !in rest;
      }
    }
  }

  /** What reset makes of one timer of the batch. */
  predicate Outcome(s: State, heap: map<nat, Timer>, addr: nat, now: int)
    requires addr in s.heap
  {
    if s.heap[addr].repeat && ActiveOf(s.heap, addr) !in s.canceling
    then addr in heap && heap[addr] == s.heap[addr].Restarted(now)
    else addr !in heap
  }

  lemma OutcomeOfFirst(s: State, u: State, heap: map<nat, Timer>, addr: nat, now: int)
    requires addr in s.heap && Outcome(s, u.heap, addr, now)
    requires if addr in u.heap then addr in heap && heap[addr] == u.heap[addr] else heap.Keys <= u.heap.Keys
    ensures Outcome(s, heap, addr, now)
  {}

  lemma SameOutcome(s: State, u: State, heap: map<nat, Timer>, addr: nat, now: int)
    requires addr in s.heap && addr in u.heap && u.heap[addr] == s.heap[addr] && u.canceling == s.canceling
    requires Outcome(u, heap, addr, now)
    ensures Outcome(s, heap, addr, now)
  {}

  lemma ResetFirst(s: State, es: seq<Entry>, now: int)
    requires Owned(s, es) && es != [] && es[0].addr in s.heap
    ensures var e, u := es[0], ResetOne(s, es[0], now);
            && u.canceling == s.canceling
            && Outcome(s, u.heap, e.addr, now)
            && u.heap.Keys <= s.heap.Keys
            && forall a | a in s.heap && a != e.addr :: a in u.heap && u.heap[a] == s.heap[a]
  {}

  /**
   * The end of a batch: a periodic timer that was not cancelled meanwhile is back in both indexes,
   * its expiration not earlier than before and strictly later if its interval is at least one
   * microsecond; every other timer of the batch is gone, and all timers outside it are as they were.
   */
  lemma BatchOutcome(s: State)
    requires Inv(s) && Enabled(s, Finish)
    ensures var t := Do(s, Finish);
            && (forall e | e in s.phase.expired :: e.addr in s.heap &&
                  var timer := s.heap[e.addr];
                  if timer.repeat && ActiveOf(s.heap, e.addr) !in s.canceling then
                    && e.addr in t.heap && InIndexes(t, e.addr)
                    && t.heap[e.addr] == timer.(expiration := s.phase.now + timer.interval)
                    && t.heap[e.addr].expiration >= timer.expiration
                    && (timer.interval >= 1 ==> t.heap[e.addr].expiration > timer.expiration)
                  else e.addr !in t.heap)
            && (forall a | a in s.heap && !InBatch(s, a) :: a in t.heap && t.heap[a] == s.heap[a])
            && t.heap.Keys <= s.heap.Keys && t.queued == s.queued
  {
    var s0 := s.(calling := false);
    ResetOutcome(s0, s.phase.expired, s.phase.now);
    DoKeepsInv(s, Finish);
    FinishHeap(s);
    var t := Do(s, Finish);
    forall e | e in s.phase.expired && e.addr in t.heap
      ensures InIndexes(t, e.addr)
    {
      OneOwner(s, e);
      OneOwnerIdle(t, e.addr);
    }
    hide Do, ResetAll, LogFits, OncePerBatch, IndexesAgree, TimersFit;
  }

  lemma FinishHeap(s: State)
    requires Inv(s) && Enabled(s, Finish)
    ensures var t := Do(s, Finish);
            && t.heap == ResetAll(s.(calling := false), s.phase.expired, s.phase.now).heap
            && t.queued == s.queued && t.phase.Idle?
  {}

  lemma OneOwner(s: State, e: Entry)
    requires Inv(s) && e in Collected(s)
    ensures e.addr in s.heap && e.addr !in s.queued
  {}

  lemma OneOwnerIdle(t: State, a: nat)
    requires Inv(t) && t.phase.Idle? && a in t.heap && a !in t.queued
    ensures InIndexes(t, a)
  {}

  // ---------------------------------------------------------------------
  // A timer runs when it was asked to
  // ---------------------------------------------------------------------

  /** addTimer keeps what it was given, under a number nobody had, and leaves all other timers alone. */
  lemma PostedAsAsked(s: State, addr: nat, when: int, interval: int, repeat: bool)
    requires Inv(s) && Enabled(s, Post(addr, when, interval, repeat))
    ensures var t := Do(s, Post(addr, when, interval, repeat));
            && t.heap == s.heap[addr := Timer(when, interval, repeat, s.created + 1)] && t.created == s.created + 1
            && t.queued == s.queued + {addr} && t.timers == s.timers && t.active == s.active && t.phase == s.phase
  {}

  lemma AddedAsAsked(s: State, addr: nat, when: int, interval: int, repeat: bool)
    requires Inv(s) && Enabled(s, AddNow(addr, when, interval, repeat))
    ensures var t := Do(s, AddNow(addr, when, interval, repeat));
            && t.heap == s.heap[addr := Timer(when, interval, repeat, s.created + 1)] && t.created == s.created + 1
            && Waiting(t, addr, Timer(when, interval, repeat, s.created + 1))
            && t.queued == s.queued && t.phase == s.phase && t.ran == s.ran
  {
    hide AddInLoop, LowerBound, InIndexes;
    var u := Allocate(s, addr, when, interval, repeat);
    AddPutsIn(u, addr);
    assert addr !in s.queued && u.queued - {addr} == s.queued by { QueuedLive(s); }
    hide Inv;
  }

  lemma AddPutsIn(s: State, addr: nat)
    requires addr in s.heap
    ensures var t := AddInLoop(s, addr);
            t.heap == s.heap && InIndexes(t, addr) && t.queued == s.queued - {addr} && t.created == s.created
            && t.phase == s.phase && t.ran == s.ran
  {}

  lemma QueuedLive(s: State)
    requires Inv(s)
    ensures s.queued <= s.heap.Keys
  {}

  /** The timer at this address, as it was added or restarted, is in both indexes. */
  predicate Waiting(s: State, addr: nat, timer: Timer) {
    addr in s.heap && s.heap[addr] == timer && InIndexes(s, addr)
  }

  /** Adding re-arms the timerfd exactly if the timer is due before all others, and for it. */
  lemma AddedRearms(s: State, addr: nat)
    requires Inv(s) && Enabled(s, RunPosted(addr)) && addr in s.heap
    ensures var t, when := Do(s, RunPosted(addr)), s.heap[addr].expiration;
            if forall e | e in s.timers :: when < e.when
            then t.fd == Some(Max(when, s.clock + 100)) && t.armed == s.clock
            else t.fd == s.fd && t.armed == s.armed
  {
    hide Inv, AddInLoop, Max, EarliestChanged;
    EarliestIs(s, addr);
    AddInLoopArms(s, addr);
  }

  lemma EarliestIs(s: State, addr: nat)
    requires Inv(s) && addr in s.heap
    ensures EarliestChanged(s, addr) <==> forall e | e in s.timers :: s.heap[addr].expiration < e.when
  {
    FirstIsEarliest(s);
    hide Inv;
  }

  lemma AddInLoopArms(s: State, addr: nat)
    requires addr in s.heap
    ensures var t := AddInLoop(s, addr);
            if EarliestChanged(s, addr)
            then t.fd == Some(Max(s.heap[addr].expiration, s.clock + 100)) && t.armed == s.clock
            else t.fd == s.fd && t.armed == s.armed
  {}

  lemma FirstIsEarliest(s: State)
    requires Inv(s)
    ensures s.timers != [] ==> s.timers[0] in s.timers && forall e | e in s.timers :: s.timers[0].when <= e.when
  {
    forall e | e in s.timers
      ensures s.timers[0].when <= e.when
    {
      var i :| 0 <= i < |s.timers| && s.timers[i] == e;
      assert i > 0 ==> Less(s.timers[0], s.timers[i]);
    }
  }

  /** The end of a batch re-arms it for the earliest timer, unless that one is due at or before 1970. */
  lemma FinishRearms(s: State)
    requires Inv(s) && Enabled(s, Finish)
    ensures var t := Do(s, Finish);
            if t.timers != [] && t.timers[0].when > 0
            then t.fd == Some(Max(t.timers[0].when, s.clock + 100)) && t.armed == s.clock
            else t.fd == s.fd && t.armed == s.armed
  {
    EndReadRearms(s);
  }

  lemma PostedIsAdded(s: State, addr: nat)
    requires Inv(s) && Enabled(s, RunPosted(addr))
    ensures addr in s.heap
    ensures var t := Do(s, RunPosted(addr));
            t.heap == s.heap && Waiting(t, addr, s.heap[addr]) && t.phase.Idle? && t.ran == s.ran
  {
    QueuedIsNotCollected(s, addr);
    AddStep(s, ActiveTimer(addr, s.heap[addr].sequence));
  }

  lemma WaitingIsApart(s: State, addr: nat, timer: Timer)
    requires Inv(s) && Waiting(s, addr, timer)
    ensures addr !in s.queued && !InBatch(s, addr)
    ensures s.phase.Batch? ==> forall e | e in s.phase.expired :: e.addr != addr
  {}

  lemma WhereElse(s: State, addr: nat)
    requires Inv(s) && addr in s.heap && addr !in s.queued && !InBatch(s, addr)
    ensures InIndexes(s, addr)
  {}

  lemma SequencesDiffer(s: State, a: nat, b: nat)
    requires Inv(s) && a in s.heap && b in s.heap && a != b
    ensures s.heap[a].sequence != s.heap[b].sequence
  {}

  /** Only its own cancel, and a batch collected when it is due, takes a timer out of the indexes. */
  lemma WaitingStep(s: State, a: Action, addr: nat, timer: Timer)
    requires Inv(s) && Waiting(s, addr, timer) && a != Cancel(ActiveTimer(addr, timer.sequence))
    requires a.Collect? && Enabled(s, a) ==> s.clock < timer.expiration
    ensures Inv(Do(s, a)) && Waiting(Do(s, a), addr, timer)
    ensures Do(s, a).ran == s.ran ||
            exists batch, sequence | sequence != timer.sequence :: Do(s, a).ran == s.ran + [Firing(batch, sequence)]
  {
    hide Inv, Do, InIndexes, InBatch;
    DoKeepsInv(s, a);
    WaitingIsApart(s, addr, timer);
    if Enabled(s, a) {
      match a
      case Tick(d) => OthersStay(s, a, addr);
      case Post(_, _, _, _) => OthersStay(s, a, addr);
      case RunPosted(_) => OthersStay(s, a, addr);
      case AddNow(_, _, _, _) => OthersStay(s, a, addr);
      case Cancel(id) =>
        CancelIsPrecise(s, id, addr);
        CancelKeepsPhase(s, id);
      case Collect =>
        CollectStep(s);
        NotDueStays(s, addr);
        WhereElse(Do(s, a), addr);
      case Fire =>
        FireStep(s);
        var e := s.phase.expired[s.phase.next];
        assert e in s.phase.expired;
        SequencesDiffer(s, addr, e.addr);
        OthersStay(s, a, addr);
      case Finish =>
        BatchOutcome(s);
        FinishLog(s);
        FinishBatchIsOver(s, addr);
        WhereElse(Do(s, a), addr);
    } else {
      DisabledStays(s, a);
    }
  }

  lemma DisabledStays(s: State, a: Action)
    requires Inv(s) && !Enabled(s, a)
    ensures Do(s, a) == s
  {}

  lemma OthersStay(s: State, a: Action, addr: nat)
    requires Inv(s) && Enabled(s, a) && addr in s.heap && InIndexes(s, addr)
    requires a.Tick? || a.Post? || a.RunPosted? || a.AddNow? || a.Fire?
    ensures var t := Do(s, a);
            addr in t.heap && t.heap[addr] == s.heap[addr] && InIndexes(t, addr) && (!a.Fire? ==> t.ran == s.ran)
  {
    hide PhaseFits, LogFits, OncePerBatch, LowerBound;
    if a.Fire? { FireStep(s); }
  }

  lemma NotDueStays(s: State, addr: nat)
    requires Inv(s) && Enabled(s, Collect) && addr in s.heap && InIndexes(s, addr)
    requires s.clock < s.heap[addr].expiration
    ensures var t := Do(s, Collect); addr in t.heap && addr !in t.queued && !InBatch(t, addr)
  {
    BatchIsExact(s);
    WaitingIsApart(s, addr, s.heap[addr]);
    CollectQueued(s);
    CollectStep(s);
    hide Inv, Do, LowerBound;
  }

  lemma CollectQueued(s: State)
    requires Inv(s) && Enabled(s, Collect)
    ensures Do(s, Collect).queued == s.queued
  {}

  lemma FinishLog(s: State)
    requires Inv(s) && Enabled(s, Finish)
    ensures Do(s, Finish).ran == s.ran && Do(s, Finish).phase.Idle?
  {
    EndReadArms(s);
  }

  lemma FinishBatchIsOver(s: State, addr: nat)
    requires Inv(s) && Enabled(s, Finish) && addr in Do(s, Finish).heap
    ensures !InBatch(Do(s, Finish), addr)
  {
    EndReadArms(s);
  }

  /** No batch of the run is collected at or after this time. */
  ghost predicate NoneCollectedBy(s: State, acts: seq<Action>, when: int)
    requires Inv(s)
  {
    forall i :: 0 <= i < |acts| ==> !CollectsDue(Run(s, acts[..i]), acts[i], when)
  }

  predicate CollectsDue(s: State, a: Action, when: int) { a.Collect? && Enabled(s, a) && when <= s.clock }

  predicate RanNothingOf(s: State, t: State, sequence: nat) {
    s.ran <= t.ran && forall i :: |s.ran| <= i < |t.ran| ==> t.ran[i].sequence != sequence
  }

  /** Until such a batch a timer that is not cancelled waits as it was added, and does not run. */
  lemma {:induction false} WaitsUntilDue(s: State, acts: seq<Action>, addr: nat, timer: Timer)
    requires Inv(s) && Waiting(s, addr, timer) && NoneCollectedBy(s, acts, timer.expiration)
    requires Cancel(ActiveTimer(addr, timer.sequence)) !in acts
    ensures Waiting(Run(s, acts), addr, timer) && RanNothingOf(s, Run(s, acts), timer.sequence)
    decreases |acts|
  {
    hide Inv, Do, Waiting, Enabled;
    if acts != [] {
      var n := |acts| - 1;
      var before := acts[..n];
      forall i | 0 <= i < n
        ensures !CollectsDue(Run(s, before[..i]), before[i], timer.expiration)
      {
        assert before[..i] == acts[..i];
      }
      WaitsUntilDue(s, before, addr, timer);
      assert !CollectsDue(Run(s, acts[..n]), acts[n], timer.expiration);
      WaitingStep(Run(s, before), acts[n], addr, timer);
    }
  }

  /** Such a batch collects it. */
  lemma DueIsCollected(s: State, addr: nat, timer: Timer)
    requires Inv(s) && Waiting(s, addr, timer) && CollectsDue(s, Collect, timer.expiration)
    ensures var t := Do(s, Collect);
            t.phase.Batch? && Entry(timer.expiration, addr) in t.phase.expired && t.phase.now == s.clock
            && addr in t.heap && t.heap[addr] == timer
  {
    BatchIsExact(s);
    CollectStep(s);
    BatchTime(s, Collect);
  }

  /**
   * A timer added for a time and not cancelled waits for it and is collected by the first batch at or
   * after it, by none before.
   */
  lemma AddedIsCollectedWhenDue(s: State, addr: nat, when: int, interval: int, repeat: bool, acts: seq<Action>)
    requires Inv(s) && Enabled(s, AddNow(addr, when, interval, repeat))
    requires Cancel(ActiveTimer(addr, s.created + 1)) !in acts
    ensures var u := Do(s, AddNow(addr, when, interval, repeat));
            && Inv(u)
            && (NoneCollectedBy(u, acts, when) ==>
                  var t := Run(u, acts);
                  && RanNothingOf(s, t, s.created + 1)
                  && Waiting(t, addr, Timer(when, interval, repeat, s.created + 1))
                  && (CollectsDue(t, Collect, when) ==> Entry(when, addr) in Collected(Do(t, Collect))))
  {
    hide Inv, Do, Enabled, Waiting, CollectsDue;
    var timer := Timer(when, interval, repeat, s.created + 1);
    DoKeepsInv(s, AddNow(addr, when, interval, repeat));
    var u := Do(s, AddNow(addr, when, interval, repeat));
    AddedAsAsked(s, addr, when, interval, repeat);
    if NoneCollectedBy(u, acts, when) {
      WaitsUntilDue(u, acts, addr, timer);
      if CollectsDue(Run(u, acts), Collect, when) { DueIsCollected(Run(u, acts), addr, timer); }
    }
  }

  /** A timer handed over by another thread waits as it was added, whatever goes on, for its turn to be indexed. */
  lemma {:induction false} PostedWaitsForItsTurn(s: State, acts: seq<Action>, addr: nat)
    requires Inv(s) && addr in s.queued && addr in s.heap && RunPosted(addr) !in acts
    ensures var t := Run(s, acts); addr in t.queued && addr in t.heap && t.heap[addr] == s.heap[addr]
    decreases |acts|
  {
    hide Inv, Do;
    if acts != [] {
      var before, a := acts[..|acts| - 1], acts[|acts| - 1];
      PostedWaitsForItsTurn(s, before, addr);
      QueuedStep(Run(s, before), a, addr);
    }
  }

  lemma QueuedStep(s: State, a: Action, addr: nat)
    requires Inv(s) && addr in s.queued && addr in s.heap && a != RunPosted(addr)
    ensures var t := Do(s, a); addr in t.queued && addr in t.heap && t.heap[addr] == s.heap[addr]
  {
    if a.Finish? && Enabled(s, a) {
      BatchOutcome(s);
      QueuedIsNotCollected(s, addr);
    } else {
      QueuedNotIndexed(s, addr);
      hide Owned, PhaseFits, LogFits, OncePerBatch, LowerBound, ActivesOf, EndRead;
    }
  }

  lemma QueuedNotIndexed(s: State, addr: nat)
    requires Inv(s) && addr in s.queued
    ensures forall id | id in s.active :: id.addr != addr
  {
    QueuedIsNotCollected(s, addr);
  }

  /** A batch that ends has run the callback of every timer it collected. */
  lemma CollectedIsRun(s: State, e: Entry)
    requires Inv(s) && Enabled(s, Finish) && e in s.phase.expired
    ensures e.addr in s.heap && Firing(s.batches, s.heap[e.addr].sequence) in s.ran
  {
    CollectedLive(s);
    var i :| 0 <= i < |s.phase.expired| && s.phase.expired[i] == e;
    assert s.ran[|s.ran| - s.phase.next + i] == Firing(s.batches, s.heap[e.addr].sequence);
    hide Owned, OncePerBatch;
  }

  /** And until then its timers stay as they were collected. */
  lemma CollectedStays(s: State, a: Action, e: Entry)
    requires Inv(s) && s.phase.Batch? && e in s.phase.expired && !(a.Finish? && Enabled(s, a))
    ensures e.addr in s.heap
    ensures var t := Do(s, a); e.addr in t.heap && t.heap[e.addr] == s.heap[e.addr]
  {
    DoKeepsInv(s, a);
    BatchIsFixed(s, a);
    HeapAfter(s, a);
    OneOwner(s, e);
    OneOwner(Do(s, a), e);
    NewNumberIsElsewhere(s, a, e.addr);
    hide Inv, Do;
  }

  lemma NewNumberIsElsewhere(s: State, a: Action, addr: nat)
    requires Inv(s) && addr in s.heap && !(a.Finish? && Enabled(s, a))
    ensures var t := Do(s, a); addr in t.heap ==> t.heap[addr] == s.heap[addr]
  {
    hide Owned, PhaseFits, LogFits, OncePerBatch, LowerBound, ActivesOf, Insert, Erase, EndRead;
  }

  // ---------------------------------------------------------------------
  // Cancellation
  // ---------------------------------------------------------------------

  /** The timer with this sequence number is gone, or will go when the current batch ends. */
  predicate Doomed(s: State, sequence: nat) {
    && sequence <= s.created
    && forall a | a in s.heap && s.heap[a].sequence == sequence ::
         InBatch(s, a) && ActiveOf(s.heap, a) in s.canceling
  }

  /** An id that addTimer returned, whether or not its timer still lives. */
  predicate Issued(s: State, id: ActiveTimer) {
    id.sequence <= s.created && forall a | a in s.heap && s.heap[a].sequence == id.sequence :: a == id.addr
  }

  /** The timer of this id still waits for its addTimerInLoop. */
  predicate StillQueued(s: State, id: ActiveTimer) {
    id.addr in s.queued && id.addr in s.heap && s.heap[id.addr].sequence == id.sequence
  }

  /** Cancelling is final exactly when the timer is not still waiting for its addTimerInLoop. */
  lemma CancelIsFinalUnlessQueued(s: State, id: ActiveTimer)
    requires Inv(s) && Enabled(s, Cancel(id)) && Issued(s, id)
    ensures Doomed(Do(s, Cancel(id)), id.sequence)
            <==> !StillQueued(s, id)
  {
    CancelOwned(s, Collected(s), id);
  }

  /** A cancel touches the named timer only: a stale id, its address reused or not, does nothing to any timer. */
  lemma CancelIsPrecise(s: State, id: ActiveTimer, a: nat)
    requires Inv(s) && Enabled(s, Cancel(id)) && a in s.heap && ActiveOf(s.heap, a) != id
    ensures var t := Do(s, Cancel(id));
            && a in t.heap && t.heap[a] == s.heap[a]
            && (InQueue(t, a) <==> InQueue(s, a))
            && (InIndexes(t, a) <==> InIndexes(s, a))
            && (InBatch(t, a) <==> InBatch(s, a))
            && t.fd == s.fd && t.queued == s.queued
            && (ActiveOf(t.heap, a) in t.canceling <==> ActiveOf(s.heap, a) in s.canceling)
            && (Doomed(t, s.heap[a].sequence) <==> Doomed(s, s.heap[a].sequence))
  {
    CancelOwned(s, Collected(s), id);
    if id in s.active { EraseSorted(s.timers, EntryOf(s.heap, id.addr)); }
    var t := Do(s, Cancel(id));
    assert id.addr == a ==> id !in s.active;
    assert a in t.heap && t.heap[a] == s.heap[a];
  }

  predicate NoSuchTimer(heap: map<nat, Timer>, sequence: nat) {
    forall a | a in heap :: heap[a].sequence != sequence
  }

  lemma AllocateKeepsDoom(s: State, sequence: nat, addr: nat, when: int, interval: int, repeat: bool)
    requires Doomed(s, sequence) && addr !in s.heap
    ensures Doomed(Allocate(s, addr, when, interval, repeat), sequence)
  {}

  lemma AddKeepsDoom(s: State, sequence: nat, addr: nat)
    requires Doomed(s, sequence) && addr in s.heap
    ensures Doomed(AddInLoop(s, addr), sequence)
  {}

  lemma CancelKeepsDoom(s: State, sequence: nat, id: ActiveTimer)
    requires Inv(s) && Doomed(s, sequence)
    ensures Doomed(CancelInLoop(s, id), sequence)
  {
    hide Inv;
    assert Owned(s, Collected(s)) by { InvOwned(s); }
    CancelOwned(s, Collected(s), id);
  }

  lemma InvOwned(s: State)
    requires Inv(s)
    ensures Owned(s, Collected(s))
  {}

  lemma IdleDoomIsGone(s: State, sequence: nat)
    requires Doomed(s, sequence) && s.phase.Idle?
    ensures NoSuchTimer(s.heap, sequence)
  {}

  lemma CollectKeepsDoom(s: State, sequence: nat)
    requires Inv(s) && Doomed(s, sequence) && s.phase.Idle?
    ensures Doomed(BeginRead(s), sequence) && NoSuchTimer(BeginRead(s).heap, sequence)
  {
    IdleDoomIsGone(s, sequence);
    hide Inv, LowerBound, ActivesOf;
    assert Owned(s, []) by { InvOwned(s); }
    assert BeginRead(s).heap == s.heap && BeginRead(s).created == s.created;
  }

  /** Doom lasts through every step; between batches, and after the next collection, the timer is no more. */
  lemma DoomLasts(s: State, sequence: nat, a: Action)
    requires Inv(s) && Doomed(s, sequence)
    ensures var t := Do(s, a);
            && Doomed(t, sequence)
            && (s.phase.Idle? || t.phase.Idle? ==> NoSuchTimer(t.heap, sequence))
  {
    hide Inv, Doomed, AddInLoop, CancelInLoop, BeginRead, EndRead, Allocate, RunNext;
    DoPhases(s, a);
    if s.phase.Idle? { IdleDoomIsGone(s, sequence); }
    if Enabled(s, a) {
      match a
      case Tick(_) => PlainKeepsDoom(s, sequence, a);
      case Fire => PlainKeepsDoom(s, sequence, a);
      case Post(addr, when, interval, repeat) => AllocateKeepsDoom(s, sequence, addr, when, interval, repeat);
      case RunPosted(addr) =>
        InvOwned(s);
        AddKeepsDoom(s, sequence, addr);
      case AddNow(addr, when, interval, repeat) =>
        AllocateKeepsDoom(s, sequence, addr, when, interval, repeat);
        AllocateQueues(s, addr, when, interval, repeat);
        AllocateKeeps(s, addr, when, interval, repeat);
        InvOwned(Allocate(s, addr, when, interval, repeat));
        AddKeepsDoom(Allocate(s, addr, when, interval, repeat), sequence, addr);
      case Cancel(id) => CancelKeepsDoom(s, sequence, id);
      case Collect => CollectKeepsDoom(s, sequence);
      case Finish => FinishKeepsDoom(s, sequence);
    }
    if Do(s, a).phase.Idle? { IdleDoomIsGone(Do(s, a), sequence); }
  }

  lemma PlainKeepsDoom(s: State, sequence: nat, a: Action)
    requires Inv(s) && Enabled(s, a) && (a.Tick? || a.Fire?) && Doomed(s, sequence)
    ensures Doomed(Do(s, a), sequence)
  {}

  /** Only Collect starts a batch. */
  lemma DoPhases(s: State, a: Action)
    requires Inv(s)
    ensures s.phase.Idle? && Do(s, a).phase.Batch? ==> a.Collect? && Enabled(s, a)
  {}

  lemma FinishKeepsDoom(s: State, sequence: nat)
    requires Inv(s) && Enabled(s, Finish) && Doomed(s, sequence)
    ensures Doomed(Do(s, Finish), sequence)
    ensures forall a | a in Do(s, Finish).heap :: Do(s, Finish).heap[a].sequence != sequence
  {
    BatchOutcome(s);
    var t := Do(s, Finish);
    assert t.created == s.created;
    hide Do, Inv, InIndexes;
    forall a | a in t.heap
      ensures t.heap[a].sequence != sequence
    {
      if InBatch(s, a) {
        assert EntryOf(s.heap, a) in s.phase.expired;
      }
    }
  }

  /** What ran since s of the timer with this number ran in the batch that was on in s. */
  predicate RanOnlyInBatchOf(s: State, t: State, sequence: nat) {
    && s.ran <= t.ran
    && forall i :: |s.ran| <= i < |t.ran| && t.ran[i].sequence == sequence ==>
         s.phase.Batch? && t.ran[i].batch == s.batches
  }

  /** A doomed timer that still lives is in the batch that was on in s. */
  predicate LivesOnlyInBatchOf(s: State, t: State, sequence: nat) {
    NoSuchTimer(t.heap, sequence) || (s.phase.Batch? && t.phase.Batch? && t.batches == s.batches)
  }

  lemma FiringOf(t: State, a: Action)
    requires Inv(t)
    ensures var u := Do(t, a);
            u.ran == t.ran ||
            (a.Fire? && t.phase.Batch? && exists addr | addr in t.heap ::
               u.ran == t.ran + [Firing(t.batches, t.heap[addr].sequence)])
  {
    hide ResetAll;
    if a.Finish? && Enabled(t, a) {
      EndReadArms(t);
    }
    if a.Fire? && Enabled(t, a) {
      assert t.phase.expired[t.phase.next] in t.phase.expired;
    }
  }

  lemma {:induction false} DoomedRun(s: State, sequence: nat, acts: seq<Action>)
    requires Inv(s) && Doomed(s, sequence)
    ensures var t := Run(s, acts);
            Doomed(t, sequence) && RanOnlyInBatchOf(s, t, sequence) && LivesOnlyInBatchOf(s, t, sequence)
    decreases |acts|
  {
    hide Inv, Do, Doomed;
    if acts == [] {
      if s.phase.Idle? { IdleDoomIsGone(s, sequence); }
    } else {
      var before, a := acts[..|acts| - 1], acts[|acts| - 1];
      DoomedRun(s, sequence, before);
      var t := Run(s, before);
      DoomLasts(t, sequence, a);
      FiringOf(t, a);
      assert sequence <= t.created by { DoomIsOfIssued(t, sequence); }
      if NoSuchTimer(t.heap, sequence) { NoSuchTimerLasts(t, sequence, a); }
      if t.phase.Batch? && Do(t, a).phase.Batch? { SameBatch(t, a); }
    }
  }

  lemma SameBatch(t: State, a: Action)
    requires Inv(t) && t.phase.Batch? && Do(t, a).phase.Batch?
    ensures Do(t, a).batches == t.batches
  {
    if a.Finish? && Enabled(t, a) { FinishHeap(t); } else { BatchIsFixed(t, a); }
  }

  /** A step other than the end of a batch leaves timers alone, frees them, or makes one with a new number. */
  lemma HeapAfter(t: State, a: Action)
    requires Inv(t) && !(a.Finish? && Enabled(t, a))
    ensures var u := Do(t, a);
            forall x | x in u.heap :: (x in t.heap && u.heap[x] == t.heap[x]) || u.heap[x].sequence == t.created + 1
  {
    hide Owned, PhaseFits, LogFits, OncePerBatch, LowerBound, ActivesOf, Insert, Erase, EndRead;
  }

  lemma NoSuchTimerLasts(t: State, sequence: nat, a: Action)
    requires Inv(t) && NoSuchTimer(t.heap, sequence) && sequence <= t.created
    ensures NoSuchTimer(Do(t, a).heap, sequence)
  {
    hide Inv, Do, Enabled;
    if a.Finish? && Enabled(t, a) {
      NoSuchIsDoomed(t, sequence);
      FinishKeepsDoom(t, sequence);
    } else {
      HeapAfter(t, a);
    }
  }

  lemma DoomIsOfIssued(t: State, sequence: nat)
    requires Doomed(t, sequence)
    ensures sequence <= t.created
  {}

  lemma NoSuchIsDoomed(t: State, sequence: nat)
    requires NoSuchTimer(t.heap, sequence) && sequence <= t.created
    ensures Doomed(t, sequence)
  {}

  /**
   * Cancellation is final: once cancelInLoop has run on the id of an added timer, no later batch runs
   * it, whatever is added, cancelled or reallocated meanwhile; outside a batch it never runs again,
   * and inside one at most its occurrence already collected does, once.
   */
  lemma CancelIsFinal(s: State, id: ActiveTimer, acts: seq<Action>)
    requires Inv(s) && Enabled(s, Cancel(id)) && Issued(s, id)
    requires !StillQueued(s, id)
    ensures Inv(Do(s, Cancel(id)))
    ensures var t := Run(Do(s, Cancel(id)), acts);
            && s.ran <= t.ran
            && (forall i :: |s.ran| <= i < |t.ran| && t.ran[i].sequence == id.sequence ==>
                  s.phase.Batch? && t.ran[i].batch == s.batches)
            && (forall i, j :: 0 <= i < j < |t.ran| ==> t.ran[i] != t.ran[j])
  {
    var u := Do(s, Cancel(id));
    InvOwned(s);
    CancelIsFinalUnlessQueued(s, id);
    DoKeepsInv(s, Cancel(id));
    CancelKeepsPhase(s, id);
    DoomedRun(u, id.sequence, acts);
    RunOncePerBatch(u, acts);
    hide Inv, Do, Doomed, Run;
  }

  lemma CancelKeepsPhase(s: State, id: ActiveTimer)
    requires Inv(s)
    ensures var u := Do(s, Cancel(id)); u.phase == s.phase && u.batches == s.batches && u.ran == s.ran
  {}

  lemma RunOncePerBatch(s: State, acts: seq<Action>)
    requires Inv(s)
    ensures OncePerBatch(Run(s, acts).ran)
  {}

  // ---------------------------------------------------------------------
  // A cancel that comes too early
  // ---------------------------------------------------------------------

  lemma CancelOfQueued(s: State, id: ActiveTimer)
    requires Inv(s) && Enabled(s, Cancel(id)) && StillQueued(s, id)
    ensures var t := Do(s, Cancel(id));
            StillQueued(t, id) && t.phase == s.phase && t.batches == s.batches && t.ran == s.ran
  {
    InvOwned(s);
    hide PhaseFits, LogFits, OncePerBatch, Sorted;
  }

  lemma FireStep(s: State)
    requires Inv(s) && Enabled(s, Fire)
    ensures var t, e := Do(s, Fire), s.phase.expired[s.phase.next];
            && e.addr in s.heap
            && t == s.(ran := s.ran + [Firing(s.batches, s.heap[e.addr].sequence)],
                       phase := s.phase.(next := s.phase.next + 1))
  {
    CollectedLive(s);
  }

  lemma FinishStep(s: State, id: ActiveTimer)
    requires Inv(s) && Enabled(s, Finish) && StillQueued(s, id)
    ensures var t := Do(s, Finish);
            StillQueued(t, id) && t.phase.Idle? && t.batches == s.batches && t.ran == s.ran
  {
    BatchOutcome(s);
    FinishHeap(s);
    EndReadArms(s);
    QueuedIsNotCollected(s, id.addr);
    hide Inv, EndRead, InBatch;
  }

  lemma QueuedIsNotCollected(s: State, addr: nat)
    requires Inv(s) && addr in s.queued
    ensures addr in s.heap && !InBatch(s, addr)
  {}

  lemma AddStep(s: State, id: ActiveTimer)
    requires Inv(s) && s.phase.Idle? && StillQueued(s, id)
    ensures var t := Do(s, RunPosted(id.addr));
            && InIndexes(s.(timers := t.timers, active := t.active), id.addr)
            && t.heap == s.heap && t.phase.Idle? && t.batches == s.batches && t.ran == s.ran
  {
    hide Inv, LowerBound;
  }

  lemma CollectStep(s: State)
    requires Inv(s) && s.phase.Idle?
    ensures var t := Do(s, Collect);
            t.heap == s.heap && t.phase.Batch? && t.phase.next == 0 && t.batches == s.batches + 1 && t.ran == s.ran
  {
    InvOwned(s);
    hide Owned, LowerBound, ActivesOf, PhaseFits, LogFits, OncePerBatch;
  }

  /** The log has grown since u, lastly by the i-th timer of the batch on in u. */
  predicate FiredLast(u: State, ran: seq<Firing>, i: nat)
    requires u.phase.Batch? && i < |u.phase.expired|
  {
    var addr := u.phase.expired[i].addr;
    addr in u.heap && |u.ran| < |ran| && ran[|ran| - 1] == Firing(u.batches, u.heap[addr].sequence)
  }

  /** Runs callbacks until n of the batch have run. */
  lemma FireUpTo(s: State, acts: seq<Action>, n: nat) returns (more: seq<Action>)
    requires Inv(s)
    requires var u := Run(s, acts); u.phase.Batch? && u.phase.next <= n <= |u.phase.expired|
    ensures var u, t := Run(s, acts), Run(s, more);
            && t == u.(ran := t.ran, phase := u.phase.(next := n)) && u.ran <= t.ran
            && (u.phase.next < n ==> FiredLast(u, t.ran, n - 1))
  {
    hide Inv, Do, Run;
    var u := Run(s, acts);
    more := acts;
    for k := u.phase.next to n
      invariant var t := Run(s, more);
                && t == u.(ran := t.ran, phase := u.phase.(next := k)) && u.ran <= t.ran
                && (u.phase.next < k ==> FiredLast(u, t.ran, k - 1))
    {
      FireStep(Run(s, more));
      RunOneMore(s, more, Fire);
      more := more + [Fire];
    }
  }

  /** Ends the batch that is on, if there is one. */
  lemma EndTheBatch(s: State, id: ActiveTimer) returns (acts: seq<Action>)
    requires Inv(s) && StillQueued(s, id)
    ensures var t := Run(s, acts);
            StillQueued(t, id) && t.phase.Idle? && t.batches == s.batches && s.ran <= t.ran
  {
    hide Inv, Do, Run;
    acts := [];
    RunNone(s);
    if s.phase.Batch? {
      BatchIsWithin(s);
      acts := FireUpTo(s, acts, |s.phase.expired|);
      FinishStep(Run(s, acts), id);
      RunOneMore(s, acts, Finish);
      acts := acts + [Finish];
    }
  }

  lemma RunNone(s: State)
    requires Inv(s)
    ensures Run(s, []) == s
  {}

  lemma BatchIsWithin(s: State)
    requires Inv(s) && s.phase.Batch?
    ensures s.phase.next <= |s.phase.expired|
  {}

  /** Collects once the given indexed timer is due, and runs the batch as far as that timer. */
  lemma RunsIndexed(s: State, acts: seq<Action>, addr: nat) returns (more: seq<Action>)
    requires Inv(s)
    requires var u := Run(s, acts); u.phase.Idle? && addr in u.heap && EntryOf(u.heap, addr) in u.timers
    ensures var u, t := Run(s, acts), Run(s, more);
            && |u.ran| < |t.ran| && u.ran <= t.ran
            && t.ran[|t.ran| - 1] == Firing(u.batches + 1, u.heap[addr].sequence)
  {
    hide Inv, Do, Run;
    var u := Run(s, acts);
    var e := EntryOf(u.heap, addr);
    var wait := Max(0, e.when - u.clock);
    TickOnly(u, wait);
    RunOneMore(s, acts, Action.Tick(wait));
    var due := Run(s, acts + [Action.Tick(wait)]);
    CollectStep(due);
    BatchIsExact(due);
    RunOneMore(s, acts + [Action.Tick(wait)], Collect);
    more := acts + [Action.Tick(wait)] + [Collect];
    var expired := Run(s, more).phase.expired;
    assert e in expired;
    var i :| 0 <= i < |expired| && expired[i] == e;
    more := FireUpTo(s, more, i + 1);
  }

  /** Such a cancel is lost: some continuation runs the timer in a batch yet to come. */
  lemma LostCancelRuns(s: State, id: ActiveTimer) returns (acts: seq<Action>)
    requires Inv(s) && Enabled(s, Cancel(id)) && StillQueued(s, id)
    ensures Inv(Do(s, Cancel(id)))
    ensures var t := Run(Do(s, Cancel(id)), acts);
            && s.ran <= t.ran && |s.ran| < |t.ran|
            && t.ran[|t.ran| - 1] == Firing(s.batches + 1, id.sequence)
  {
    hide Inv, Do, Run, Enabled;
    CancelOfQueued(s, id);
    DoKeepsInv(s, Cancel(id));
    var u := Do(s, Cancel(id));
    acts := EndTheBatch(u, id);
    AddStep(Run(u, acts), id);
    RunOneMore(u, acts, RunPosted(id.addr));
    acts := RunsIndexed(u, acts + [RunPosted(id.addr)], id.addr);
  }

  /** Cancelling an issued id is final, over every continuation, exactly when its timer is not still queued. */
  lemma CancelIsFinalExactly(s: State, id: ActiveTimer)
    requires Inv(s) && Enabled(s, Cancel(id)) && Issued(s, id)
    ensures Inv(Do(s, Cancel(id)))
    ensures (forall acts :: RanOnlyInBatchOf(s, Run(Do(s, Cancel(id)), acts), id.sequence)) <==> !StillQueued(s, id)
  {
    DoKeepsInv(s, Cancel(id));
    if StillQueued(s, id) {
      var acts := LostCancelRuns(s, id);
      assert !RanOnlyInBatchOf(s, Run(Do(s, Cancel(id)), acts), id.sequence);
    } else {
      forall acts
        ensures RanOnlyInBatchOf(s, Run(Do(s, Cancel(id)), acts), id.sequence)
      {
        CancelIsFinal(s, id, acts);
      }
    }
    hide Inv, Do, Run, Enabled, Issued;
  }
}
