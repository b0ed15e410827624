/**
 * Timers of one event loop as values: src/TimerQueue.cpp, src/Timer.cpp, include/Timer.h and
 * include/Timestamp.h. Times are integer microseconds; the clock never goes back.
 */
module TimerModel {
  import opened Numbers
  import opened SortedEntries

  datatype Option<T> = None | Some(value: T)

  /** The largest address, which no object has; getExpired searches with it. */
  const UINTPTR_MAX: nat := 0xffff_ffff_ffff_ffff

  datatype Timer = Timer(expiration: int, interval: int, repeat: bool, sequence: nat) {
    /** Timer::restart */
    function Restarted(now: int): Timer {
      this.(expiration := if repeat then now + interval else 0)
    }
  }

  /** A timer's address and sequence number: TimerId, and an element of M_activeTimers. */
  datatype ActiveTimer = ActiveTimer(addr: nat, sequence: nat)

  /** handleRead collects a batch and then runs its callbacks one by one. */
  datatype Phase = Idle | Batch(now: int, expired: seq<Entry>, next: nat)

  datatype Firing = Firing(batch: nat, sequence: nat)

  datatype State = State(
    clock: int,
    created: nat,                   // Timer::s_numCreated
    heap: map<nat, Timer>,          // the live Timer objects by address; a freed address may return
    queued: set<nat>,               // made by addTimer, with addTimerInLoop still to run
    timers: seq<Entry>,             // M_timers
    active: set<ActiveTimer>,       // M_activeTimers
    canceling: set<ActiveTimer>,    // M_cancelingTimers
    calling: bool,                  // M_callingExpiredTimers
    fd: Option<int>,                // when the timerfd fires or fired; None: disarmed, or read since
    armed: int,                     // the clock when it was last armed
    phase: Phase,
    batches: nat,                   // how many batches have been collected
    ran: seq<Firing>                // every callback run, in order
  )

  /** A new queue, at any clock: one before 1970 is negative. */
  function Start(clock: int): State {
    State(clock, 0, map[], {}, [], {}, {}, false, None, clock, Idle, 0, [])
  }

  function EntryOf(heap: map<nat, Timer>, addr: nat): Entry
    requires addr in heap
  {
    Entry(heap[addr].expiration, addr)
  }

  function ActiveOf(heap: map<nat, Timer>, addr: nat): ActiveTimer
    requires addr in heap
  {
    ActiveTimer(addr, heap[addr].sequence)
  }

  // ---------------------------------------------------------------------
  // The timerfd
  // ---------------------------------------------------------------------

  const MICROS_PER_SECOND := 1_000_000

  datatype Timespec = Timespec(sec: int, nsec: int)

  function HowMuchTimeFromNow(when: int, now: int): Timespec {
    var micros := Max(when - now, 100);
    Timespec(micros / MICROS_PER_SECOND, micros % MICROS_PER_SECOND * 1000)
  }

  /** The timespec is normal and exact, and never zero, which would disarm the timerfd. */
  lemma TimespecExact(when: int, now: int)
    ensures var ts := HowMuchTimeFromNow(when, now);
            && 0 <= ts.sec && 0 <= ts.nsec < 1_000_000_000
            && ts.sec * 1_000_000_000 + ts.nsec == Max(when - now, 100) * 1000 > 0
  {}

  /** resetTimerfd: one shot, and at least 100 microseconds away. */
  function Arm(s: State, when: int): State {
    s.(fd := Some(s.clock + Max(when - s.clock, 100)), armed := s.clock)
  }

  /** Armed, or fired and unread, for the time given or the least that resetTimerfd allows. */
  predicate ArmedFor(s: State, when: int) {
    s.fd.Some? && s.fd.value <= Max(when, s.armed + 100)
  }

  /** Arming is in time exactly for what is at least 100 microseconds away. */
  lemma ArmIsInTime(s: State, when: int)
    ensures var t := Arm(s, when);
            && ArmedFor(t, when) && t.armed == s.clock && t.fd.value >= when
            && (t.fd.value <= when <==> when - s.clock >= 100)
  {}

  // ---------------------------------------------------------------------
  // The operations
  // ---------------------------------------------------------------------

  function InsertTimer(s: State, addr: nat): State
    requires addr in s.heap
  {
    s.(timers := Insert(s.timers, EntryOf(s.heap, addr)), active := s.active + {ActiveOf(s.heap, addr)})
  }

  predicate EarliestChanged(s: State, addr: nat)
    requires addr in s.heap
  {
    s.timers == [] || s.heap[addr].expiration < s.timers[0].when
  }

  /** new Timer, by any thread, with its addTimerInLoop bound for the loop. */
  function Allocate(s: State, addr: nat, when: int, interval: int, repeat: bool): State {
    s.(heap := s.heap[addr := Timer(when, interval, repeat, s.created + 1)],
       created := s.created + 1, queued := s.queued + {addr})
  }

  function AddInLoop(s: State, addr: nat): State
    requires addr in s.heap
  {
    var t := InsertTimer(s, addr).(queued := s.queued - {addr});
    if EarliestChanged(s, addr) then Arm(t, s.heap[addr].expiration) else t
  }

  function CancelInLoop(s: State, id: ActiveTimer): State
    requires id in s.active ==> id.addr in s.heap
  {
    if id in s.active then
      s.(timers := Erase(s.timers, EntryOf(s.heap, id.addr)),
         heap := s.heap - {id.addr}, active := s.active - {id})
    else if s.calling then s.(canceling := s.canceling + {id})
    else s
  }

  /** A read of the timerfd clears it if it has fired, and fails otherwise. */
  function ReadTimerfd(s: State, now: int): State {
    if s.fd.Some? && s.fd.value <= now then s.(fd := None) else s
  }

  function ActivesOf(heap: map<nat, Timer>, es: seq<Entry>): set<ActiveTimer>
    requires forall e | e in es :: e.addr in heap
  {
    set e | e in es :: ActiveOf(heap, e.addr)
  }

  /** How many entries getExpired moves out. */
  function ExpiredCount(s: State, now: int): nat { LowerBound(s.timers, Entry(now, UINTPTR_MAX)) }

  function BeginRead(s: State): State
    requires forall e | e in s.timers :: e.addr in s.heap
  {
    var now := s.clock;
    var t := ReadTimerfd(s, now);
    var k := ExpiredCount(t, now);
    assert forall e | e in t.timers[..k] :: e in t.timers;
    t.(timers := t.timers[k..], active := t.active - ActivesOf(t.heap, t.timers[..k]),
       canceling := {}, calling := true, phase := Batch(now, t.timers[..k], 0), batches := t.batches + 1)
  }

  function RunNext(s: State): State
    requires s.phase.Batch? && s.phase.next < |s.phase.expired|
    requires s.phase.expired[s.phase.next].addr in s.heap
  {
    var e := s.phase.expired[s.phase.next];
    s.(ran := s.ran + [Firing(s.batches, s.heap[e.addr].sequence)],
       phase := s.phase.(next := s.phase.next + 1))
  }

  function ResetOne(s: State, e: Entry, now: int): State
    requires e.addr in s.heap
  {
    if s.heap[e.addr].repeat && ActiveOf(s.heap, e.addr) !in s.canceling then
      var t := s.(heap := s.heap[e.addr := s.heap[e.addr].Restarted(now)]);
      InsertTimer(t, e.addr)
    else
      s.(heap := s.heap - {e.addr})
  }

  // ---------------------------------------------------------------------
  // Who owns what
  // ---------------------------------------------------------------------

  /** Entries of live timers, each keyed by its timer's current expiration. */
  predicate EntriesFit(heap: map<nat, Timer>, es: seq<Entry>) {
    Sorted(es) && forall e | e in es :: e.addr in heap && heap[e.addr].expiration == e.when
  }

  /** The two indexes hold the same timers. */
  predicate IndexesAgree(heap: map<nat, Timer>, timers: seq<Entry>, active: set<ActiveTimer>) {
    && (forall e | e in timers :: e.addr in heap && ActiveOf(heap, e.addr) in active)
    && (forall a | a in active ::
          a.addr in heap && heap[a.addr].sequence == a.sequence && EntryOf(heap, a.addr) in timers)
  }

  /** Every live timer is queued, indexed, or among the collected entries es, and in one of them only. */
  predicate Partition(heap: map<nat, Timer>, queued: set<nat>, timers: seq<Entry>, es: seq<Entry>) {
    && queued <= heap.Keys
    && forall a | a in heap ::
         if a in queued then EntryOf(heap, a) !in timers && EntryOf(heap, a) !in es
         else EntryOf(heap, a) in timers <==> EntryOf(heap, a) !in es
  }

  predicate TimersFit(heap: map<nat, Timer>, created: nat) {
    && (forall a | a in heap :: a < UINTPTR_MAX && heap[a].sequence <= created
                                && (heap[a].repeat ==> heap[a].interval >= 0))
    && (forall a, b | a in heap && b in heap && heap[a].sequence == heap[b].sequence :: a == b)
  }

  predicate Owned(s: State, es: seq<Entry>) {
    && EntriesFit(s.heap, s.timers) && EntriesFit(s.heap, es)
    && IndexesAgree(s.heap, s.timers, s.active)
    && Partition(s.heap, s.queued, s.timers, es)
    && TimersFit(s.heap, s.created)
  }

  lemma AllocateOwned(s: State, es: seq<Entry>, addr: nat, when: int, interval: int, repeat: bool)
    requires Owned(s, es) && addr !in s.heap && addr < UINTPTR_MAX && (repeat ==> interval >= 0)
    ensures Owned(Allocate(s, addr, when, interval, repeat), es)
  {
    hide Sorted;
    var t := Allocate(s, addr, when, interval, repeat);
    assert EntriesFit(t.heap, s.timers) && EntriesFit(t.heap, es) by { hide IndexesAgree, Partition, TimersFit; }
    assert IndexesAgree(t.heap, s.timers, s.active) by { hide EntriesFit, Partition, TimersFit; }
    assert Partition(t.heap, t.queued, s.timers, es) by { hide IndexesAgree, TimersFit; }
    assert TimersFit(t.heap, t.created) by { hide IndexesAgree, EntriesFit, Partition; }
    hide IndexesAgree, EntriesFit, Partition, TimersFit;
  }

  lemma AddOwned(s: State, es: seq<Entry>, addr: nat)
    requires Owned(s, es) && addr in s.queued
    ensures EntryOf(s.heap, addr) !in s.timers && ActiveOf(s.heap, addr) !in s.active
    ensures Owned(AddInLoop(s, addr), es)
  {
    InsertSorted(s.timers, EntryOf(s.heap, addr));
  }

  lemma CancelOwned(s: State, es: seq<Entry>, id: ActiveTimer)
    requires Owned(s, es)
    ensures id in s.active ==> id.addr in s.heap && EntryOf(s.heap, id.addr) in s.timers
    ensures Owned(CancelInLoop(s, id), es)
  {
    if id in s.active {
      EraseSorted(s.timers, EntryOf(s.heap, id.addr));
    }
  }

  /** The first collected entry is apart from all others. */
  lemma FirstApart(s: State, es: seq<Entry>)
    requires Owned(s, es) && es != []
    ensures var e := es[0];
            && e.addr in s.heap && EntryOf(s.heap, e.addr) == e && e.addr !in s.queued
            && (forall x | x in s.timers :: x.addr != e.addr)
            && (forall x | x in es[1..] :: x.addr != e.addr && x in es)
            && (forall x | x in es :: x == e || x in es[1..])
            && Sorted(es[1..])
  {
    var e := es[0];
    assert e in es;
    SplitSorted(es, 1);
    assert es[..1] == [e];
  }

  lemma FreeOwned(s: State, es: seq<Entry>)
    requires Owned(s, es) && es != [] && es[0].addr in s.heap
    ensures Owned(s.(heap := s.heap - {es[0].addr}), es[1..])
  {
    hide Sorted;
    FirstApart(s, es);
    var h, rest := s.heap - {es[0].addr}, es[1..];
    assert EntriesFit(h, s.timers) && EntriesFit(h, rest);
    assert IndexesAgree(h, s.timers, s.active);
    assert Partition(h, s.queued, s.timers, rest);
  }

  /** A restarted timer leaves the batch and is, for a moment, as if queued for add. */
  lemma RestartOwned(s: State, es: seq<Entry>, now: int)
    requires Owned(s, es) && es != [] && es[0].addr in s.heap
    ensures var e := es[0];
            Owned(s.(heap := s.heap[e.addr := s.heap[e.addr].Restarted(now)], queued := s.queued + {e.addr}), es[1..])
  {
    hide Sorted;
    FirstApart(s, es);
    var e, rest := es[0], es[1..];
    var h := s.heap[e.addr := s.heap[e.addr].Restarted(now)];
    assert EntriesFit(h, s.timers) && EntriesFit(h, rest);
    assert IndexesAgree(h, s.timers, s.active);
    assert Partition(h, s.queued + {e.addr}, s.timers, rest);
  }

  lemma ResetOwned(s: State, es: seq<Entry>, now: int)
    requires Owned(s, es) && es != []
    ensures es[0].addr in s.heap && Owned(ResetOne(s, es[0], now), es[1..])
  {
    hide Owned;
    FirstApart(s, es);
    var e := es[0];
    if s.heap[e.addr].repeat && ActiveOf(s.heap, e.addr) !in s.canceling {
      var t := s.(heap := s.heap[e.addr := s.heap[e.addr].Restarted(now)], queued := s.queued + {e.addr});
      RestartOwned(s, es, now);
      AddOwned(t, es[1..], e.addr);
      assert t.queued - {e.addr} == s.queued;
      SameOwned(AddInLoop(t, e.addr), ResetOne(s, e, now), es[1..]);
    } else {
      FreeOwned(s, es);
    }
  }

  lemma SameOwned(s: State, t: State, es: seq<Entry>)
    requires Owned(s, es) && t.heap == s.heap && t.queued == s.queued && t.timers == s.timers
    requires t.active == s.active && t.created == s.created
    ensures Owned(t, es)
  {}

  /** reset's loop over the collected entries. */
  function ResetAll(s: State, es: seq<Entry>, now: int): (t: State)
    requires Owned(s, es)
    ensures Owned(t, [])
    ensures t.clock == s.clock && t.queued == s.queued && t.created == s.created
    decreases es
  {
    if es == [] then s
    else ResetOwned(s, es, now); ResetAll(ResetOne(s, es[0], now), es[1..], now)
  }

  function EndRead(s: State): State
    requires s.phase.Batch? && Owned(s, s.phase.expired)
  {
    var t := ResetAll(s.(calling := false), s.phase.expired, s.phase.now).(phase := Idle);
    if t.timers != [] && t.timers[0].when > 0 then
      assert t.timers[0] in t.timers;
      Arm(t, t.heap[t.timers[0].addr].expiration)
    else t
  }

  /** The collected prefix is exactly what is due, and the rest lies in the future. */
  lemma CollectSplits(s: State, now: int)
    requires Owned(s, [])
    ensures var k := ExpiredCount(s, now);
            && (forall e | e in s.timers[..k] :: e.when <= now)
            && (forall e | e in s.timers[k..] :: now < e.when)
  {
    var sentry := Entry(now, UINTPTR_MAX);
    LowerBoundSplits(s.timers, sentry);
    forall e | e in s.timers[ExpiredCount(s, now)..]
      ensures now < e.when
    {
      assert e in s.timers;
    }
  }

  /** Erasing the active timers of a prefix leaves those of the rest. */
  lemma ActivesSplit(heap: map<nat, Timer>, timers: seq<Entry>, active: set<ActiveTimer>, k: nat)
    requires EntriesFit(heap, timers) && IndexesAgree(heap, timers, active) && k <= |timers|
    ensures forall e | e in timers[..k] :: e.addr in heap
    ensures IndexesAgree(heap, timers[k..], active - ActivesOf(heap, timers[..k]))
  {
    hide Sorted;
    SplitSorted(timers, k);
    forall e | e in timers[k..]
      ensures e in timers && ActiveOf(heap, e.addr) in active - ActivesOf(heap, timers[..k])
    {
      assert forall x | x in timers[..k] :: x in timers && x.addr != e.addr;
    }
    forall a | a in active - ActivesOf(heap, timers[..k])
      ensures a.addr in heap && EntryOf(heap, a.addr) in timers[k..]
    {
      var e := EntryOf(heap, a.addr);
      assert a == ActiveOf(heap, e.addr);
    }
  }

  lemma CollectOwned(s: State)
    requires Owned(s, [])
    ensures Owned(BeginRead(s), BeginRead(s).phase.expired)
  {
    hide Sorted, LowerBound, IndexesAgree;
    var k := ExpiredCount(s, s.clock);
    SplitSorted(s.timers, k);
    ActivesSplit(s.heap, s.timers, s.active, k);
    var t := BeginRead(s);
    assert t.heap == s.heap && t.queued == s.queued && t.created == s.created;
    assert t.timers == s.timers[k..] && t.phase.expired == s.timers[..k];
  }

  // ---------------------------------------------------------------------
  // What every step keeps
  // ---------------------------------------------------------------------

  predicate ArmedForFirst(s: State) {
    s.timers != [] ==> ArmedFor(s, s.timers[0].when)
  }

  /** A batch that began after 1970 is armed for any first timer that reset will decline to arm for. */
  predicate ArmedForInvalid(s: State) {
    s.phase.Batch? && s.phase.now > 0 && s.timers != [] && s.timers[0].when <= 0 ==> ArmedFor(s, s.timers[0].when)
  }

  function Collected(s: State): seq<Entry> { if s.phase.Batch? then s.phase.expired else [] }

  predicate PhaseFits(s: State) {
    && s.armed <= s.clock
    && (s.calling <==> s.phase.Batch?)
    && ArmedForInvalid(s)
    && match s.phase
       case Idle => true
       case Batch(now, expired, next) =>
         && now <= s.clock && next <= |expired| && s.batches > 0
         && (forall e | e in expired :: e.when <= now)
  }

  /** The callbacks run in the current batch are those of its first entries; all others ran in earlier ones. */
  predicate LogFits(s: State) {
    var done := if s.phase.Batch? then s.phase.next else 0;
    var before := |s.ran| - done;
    && before >= 0
    && (forall i :: 0 <= i < before ==> s.ran[i].batch < s.batches + (if s.phase.Idle? then 1 else 0))
    && (s.phase.Batch? ==> forall i :: 0 <= i < done && i < |s.phase.expired| && s.phase.expired[i].addr in s.heap ==>
          s.ran[before + i] == Firing(s.batches, s.heap[s.phase.expired[i].addr].sequence))
  }

  /** No timer runs twice in one batch. */
  predicate OncePerBatch(ran: seq<Firing>) {
    forall i, j :: 0 <= i < j < |ran| ==> ran[i] != ran[j]
  }

  predicate Inv(s: State) {
    Owned(s, Collected(s)) && PhaseFits(s) && LogFits(s) && OncePerBatch(s.ran)
  }

  datatype Action =
    | Tick(d: nat)
    | Post(addr: nat, when: int, interval: int, repeat: bool)     // addTimer in another thread
    | RunPosted(addr: nat)                                        // its addTimerInLoop, in the loop
    | AddNow(addr: nat, when: int, interval: int, repeat: bool)   // addTimer in the loop thread
    | Cancel(id: ActiveTimer)                                     // cancelInLoop
    | Collect                                                     // handleRead up to its loop
    | Fire                                                        // the next callback starts
    | Finish                                                      // handleRead after its loop

  /** Where code of the program's user may run in the loop thread. */
  predicate InUserCode(s: State) { s.phase.Batch? ==> s.phase.next > 0 }

  predicate CanAllocate(s: State, addr: nat, interval: int, repeat: bool) {
    addr !in s.heap && addr < UINTPTR_MAX && (repeat ==> interval >= 0)
  }

  predicate Enabled(s: State, a: Action) {
    match a
    case Tick(_) => true
    case Post(addr, _, interval, repeat) => CanAllocate(s, addr, interval, repeat)
    case RunPosted(addr) => s.phase.Idle? && addr in s.queued
    case AddNow(addr, _, interval, repeat) => InUserCode(s) && CanAllocate(s, addr, interval, repeat)
    case Cancel(_) => InUserCode(s)
    case Collect => s.phase.Idle?
    case Fire => s.phase.Batch? && s.phase.next < |s.phase.expired|
    case Finish => s.phase.Batch? && s.phase.next == |s.phase.expired|
  }

  /** Every timer an operation dereferences, erases or deletes is live: the invariant makes this well defined. */
  function Do(s: State, a: Action): State
    requires Inv(s)
  {
    if !Enabled(s, a) then s
    else
      match a
      case Tick(d) => s.(clock := s.clock + d)
      case Post(addr, when, interval, repeat) => Allocate(s, addr, when, interval, repeat)
      case RunPosted(addr) => AddInLoop(s, addr)
      case AddNow(addr, when, interval, repeat) => AddInLoop(Allocate(s, addr, when, interval, repeat), addr)
      case Cancel(id) => CancelInLoop(s, id)
      case Collect => BeginRead(s)
      case Fire => assert s.phase.expired[s.phase.next] in s.phase.expired; RunNext(s)
      case Finish => EndRead(s)
  }

  lemma AllocateKeeps(s: State, addr: nat, when: int, interval: int, repeat: bool)
    requires Inv(s) && CanAllocate(s, addr, interval, repeat)
    ensures Inv(Allocate(s, addr, when, interval, repeat))
  {
    AllocateOwned(s, Collected(s), addr, when, interval, repeat);
    LogKept(s, Allocate(s, addr, when, interval, repeat));
  }

  /** The log stays right as long as the batch and its timers do. */
  lemma LogKept(s: State, t: State)
    requires Owned(s, Collected(s)) && PhaseFits(s) && LogFits(s) && t.ran == s.ran && t.phase == s.phase
    requires t.batches == s.batches
    requires s.phase.Batch? ==> forall e | e in s.phase.expired :: e.addr in t.heap && t.heap[e.addr] == s.heap[e.addr]
    ensures LogFits(t)
  {
    if s.phase.Batch? { StillThere(s, t); }
    hide Owned, PhaseFits;
  }

  lemma StillThere(s: State, t: State)
    requires Owned(s, Collected(s)) && s.phase.Batch?
    requires forall e | e in s.phase.expired :: e.addr in t.heap && t.heap[e.addr] == s.heap[e.addr]
    ensures forall i :: 0 <= i < |s.phase.expired| ==>
              && s.phase.expired[i].addr in s.heap && s.phase.expired[i].addr in t.heap
              && t.heap[s.phase.expired[i].addr] == s.heap[s.phase.expired[i].addr]
  {
    assert forall i :: 0 <= i < |s.phase.expired| ==> s.phase.expired[i] in s.phase.expired;
  }

  lemma AddKeeps(s: State, addr: nat)
    requires Inv(s) && addr in s.queued
    ensures Inv(AddInLoop(s, addr))
  {
    var t := AddInLoop(s, addr);
    AddOwned(s, Collected(s), addr);
    InsertSorted(s.timers, EntryOf(s.heap, addr));
    LogKept(s, t);
    hide Owned, LogFits;
  }

  lemma CancelKeeps(s: State, id: ActiveTimer)
    requires Inv(s)
    ensures Inv(CancelInLoop(s, id))
  {
    var t := CancelInLoop(s, id);
    CancelOwned(s, Collected(s), id);
    if id in s.active {
      EraseSorted(s.timers, EntryOf(s.heap, id.addr));
      forall e | e in Collected(s)
        ensures e.addr != id.addr
      {}
    }
    LogKept(s, t);
    hide Owned, LogFits;
  }

  lemma CollectPhase(s: State)
    requires Owned(s, []) && s.armed <= s.clock
    ensures PhaseFits(BeginRead(s))
  {
    assert forall e | e in s.timers :: e.addr in s.heap;
    hide Owned, LowerBound, ActivesOf;
    CollectSplits(s, s.clock);
    var t := BeginRead(s);
    if t.timers != [] { assert t.timers[0] in t.timers; }
  }

  lemma CollectKeeps(s: State)
    requires Inv(s) && s.phase.Idle?
    ensures Inv(BeginRead(s))
  {
    CollectOwned(s);
    CollectPhase(s);
    hide Owned, PhaseFits, LowerBound, ActivesOf;
  }

  lemma CollectedLive(s: State)
    requires Owned(s, Collected(s)) && s.phase.Batch?
    ensures forall i :: 0 <= i < |s.phase.expired| ==> s.phase.expired[i].addr in s.heap
    ensures forall i, j :: 0 <= i < j < |s.phase.expired| ==>
              s.heap[s.phase.expired[i].addr].sequence != s.heap[s.phase.expired[j].addr].sequence
  {
    var expired := s.phase.expired;
    assert forall i :: 0 <= i < |expired| ==> expired[i] in expired;
    forall i, j | 0 <= i < j < |expired|
      ensures s.heap[expired[i].addr].sequence != s.heap[expired[j].addr].sequence
    {
      assert Less(expired[i], expired[j]);
    }
  }

  lemma FireLog(s: State)
    requires Owned(s, Collected(s)) && s.phase.Batch? && s.phase.next < |s.phase.expired|
    requires LogFits(s) && OncePerBatch(s.ran)
    ensures s.phase.expired[s.phase.next].addr in s.heap
    ensures LogFits(RunNext(s)) && OncePerBatch(RunNext(s).ran)
  {
    CollectedLive(s);
    hide Owned;
    var expired, next := s.phase.expired, s.phase.next;
    var t := RunNext(s);
    var before := |s.ran| - next;
    forall i | 0 <= i < |s.ran|
      ensures t.ran[i] != t.ran[|s.ran|]
    {
      if i >= before {
        assert s.ran[before + (i - before)] == Firing(s.batches, s.heap[expired[i - before].addr].sequence);
      }
    }
  }

  lemma FireKeeps(s: State)
    requires Inv(s) && s.phase.Batch? && s.phase.next < |s.phase.expired|
    ensures s.phase.expired[s.phase.next].addr in s.heap && Inv(RunNext(s))
  {
    hide Owned, LogFits, OncePerBatch;
    FireLog(s);
    SameOwned(s, RunNext(s), s.phase.expired);
  }

  lemma {:induction false} ResetKeepsHead(s: State, es: seq<Entry>, now: int)
    requires Owned(s, es)
    ensures var t := ResetAll(s, es, now);
            && t.fd == s.fd && t.armed == s.armed && t.ran == s.ran && t.batches == s.batches && t.calling == s.calling
            && (now > 0 && t.timers != [] && t.timers[0].when <= 0 ==> s.timers != [] && s.timers[0] == t.timers[0])
    decreases es
  {
    if es != [] {
      ResetOwned(s, es, now);
      var u := ResetOne(s, es[0], now);
      ResetKeepsHead(u, es[1..], now);
      if now > 0 { ResetOneHead(s, es, now); }
    }
  }

  lemma ResetOneHead(s: State, es: seq<Entry>, now: int)
    requires Owned(s, es) && es != [] && now > 0
    ensures es[0].addr in s.heap
    ensures var u := ResetOne(s, es[0], now);
            u.timers != [] && u.timers[0].when <= 0 ==> s.timers != [] && s.timers[0] == u.timers[0]
  {
    FirstApart(s, es);
    RestartsLater(s, es, now);
    hide Owned, Sorted, Insert;
    var e := es[0];
    var h := s.heap[e.addr := s.heap[e.addr].Restarted(now)];
    if s.heap[e.addr].repeat {
      assert EntryOf(h, e.addr) !in s.timers;
      InsertSorted(s.timers, EntryOf(h, e.addr));
    }
  }

  lemma RestartsLater(s: State, es: seq<Entry>, now: int)
    requires Owned(s, es) && es != []
    ensures es[0].addr in s.heap && Sorted(s.timers)
    ensures s.heap[es[0].addr].repeat ==> s.heap[es[0].addr].Restarted(now).expiration >= now
  {
    FirstApart(s, es);
    hide Sorted;
  }

  lemma FinishKeeps(s: State)
    requires Inv(s) && s.phase.Batch? && s.phase.next == |s.phase.expired|
    ensures Inv(EndRead(s))
  {
    hide ResetAll, Owned, LogFits, OncePerBatch, EndRead;
    EndReadArms(s);
    BatchesSoFar(s);
    LogClosed(s, EndRead(s));
  }

  lemma LogClosed(s: State, t: State)
    requires forall i :: 0 <= i < |s.ran| ==> s.ran[i].batch <= s.batches
    requires t.ran == s.ran && t.batches == s.batches && t.phase.Idle?
    ensures LogFits(t)
  {}

  lemma BatchesSoFar(s: State)
    requires Inv(s)
    ensures forall i :: 0 <= i < |s.ran| ==> s.ran[i].batch <= s.batches
  {
    if s.phase.Batch? {
      var before := |s.ran| - s.phase.next;
      forall i | before <= i < |s.ran|
        ensures s.ran[i].batch <= s.batches
      {
        assert s.phase.expired[i - before] in s.phase.expired;
        assert s.ran[before + (i - before)].batch == s.batches;
      }
    }
  }

  /** What reset makes of the timers of the batch, before it looks at the timerfd. */
  function AfterReset(s: State): State
    requires s.phase.Batch? && Owned(s, s.phase.expired)
  {
    ResetAll(s.(calling := false), s.phase.expired, s.phase.now)
  }

  /** The valid() test of reset declines to arm for the first timer, and no callback has. */
  predicate Skips(s: State)
    requires s.phase.Batch? && Owned(s, s.phase.expired)
  {
    var t := AfterReset(s);
    t.timers != [] && t.timers[0].when <= 0 && !ArmedFor(s, t.timers[0].when)
  }

  /** After a batch everything is owned by the indexes again, and the timerfd is armed unless reset declined. */
  lemma EndReadArms(s: State)
    requires Inv(s) && s.phase.Batch?
    ensures var t := EndRead(s);
            && Owned(t, []) && t.ran == s.ran && t.batches == s.batches && t.phase.Idle?
            && t.timers == AfterReset(s).timers
            && PhaseFits(t) && (ArmedForFirst(t) <==> !Skips(s))
    ensures s.phase.now > 0 ==> !Skips(s)
  {
    var s0 := s.(calling := false);
    var t := AfterReset(s);
    ResetKeepsHead(s0, s.phase.expired, s.phase.now);
    if t.timers != [] {
      assert t.timers[0] in t.timers;
      assert t.heap[t.timers[0].addr].expiration == t.timers[0].when;
    }
    SameOwned(t, EndRead(s), []);
    hide Owned, ResetAll, LogFits, OncePerBatch;
  }

  lemma EndReadRearms(s: State)
    requires Inv(s) && s.phase.Batch?
    ensures var t := EndRead(s);
            if t.timers != [] && t.timers[0].when > 0
            then t.fd == Some(Max(t.timers[0].when, s.clock + 100)) && t.armed == s.clock
            else t.fd == s.fd && t.armed == s.armed
  {
    hide Owned, ResetAll, PhaseFits, LogFits, OncePerBatch;
    SameOwned(s, s.(calling := false), s.phase.expired);
    var t := AfterReset(s);
    ResetKeepsHead(s.(calling := false), s.phase.expired, s.phase.now);
    if t.timers != [] { FirstFits(t); }
  }

  lemma FirstFits(s: State)
    requires Owned(s, []) && s.timers != []
    ensures s.timers[0].addr in s.heap && s.heap[s.timers[0].addr].expiration == s.timers[0].when
  {
    assert s.timers[0] in s.timers;
  }

  /** Every step keeps the invariant, those taken inside callbacks included. */
  lemma DoKeepsInv(s: State, a: Action)
    requires Inv(s)
    ensures Inv(Do(s, a))
  {
    hide Inv, AddInLoop, CancelInLoop, BeginRead, RunNext, EndRead, Allocate;
    if Enabled(s, a) {
      match a
      case Tick(d) => TickKeeps(s, d);
      case Post(addr, when, interval, repeat) => AllocateKeeps(s, addr, when, interval, repeat);
      case RunPosted(addr) => AddKeeps(s, addr);
      case AddNow(addr, when, interval, repeat) =>
        AllocateKeeps(s, addr, when, interval, repeat);
        AllocateQueues(s, addr, when, interval, repeat);
        AddKeeps(Allocate(s, addr, when, interval, repeat), addr);
      case Cancel(id) => CancelKeeps(s, id);
      case Collect => CollectKeeps(s);
      case Fire => FireKeeps(s);
      case Finish => FinishKeeps(s);
    }
  }

  lemma AllocateQueues(s: State, addr: nat, when: int, interval: int, repeat: bool)
    ensures addr in Allocate(s, addr, when, interval, repeat).queued
  {}

  lemma TickKeeps(s: State, d: nat)
    requires Inv(s)
    ensures Inv(s.(clock := s.clock + d))
  {
    SameOwned(s, s.(clock := s.clock + d), Collected(s));
    LogKept(s, s.(clock := s.clock + d));
  }

  function Run(s: State, acts: seq<Action>): (t: State)
    requires Inv(s)
    ensures Inv(t)
    decreases |acts|
  {
    if acts == [] then s
    else
      var t := Run(s, acts[..|acts| - 1]);
      DoKeepsInv(t, acts[|acts| - 1]);
      Do(t, acts[|acts| - 1])
  }
}
