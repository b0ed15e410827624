/**
 * The TimerQueue class. Its object is always in a state of some run of TimerModel, so all that
 * TimerProperties proves of runs holds of it.
 */
module TimerQueueClass {
  import opened Numbers
  import opened SortedEntries
  import opened TimerModel
  import opened TimerProperties

  /** What a callback may do, and what other threads and the clock may do in between. */
  predicate IsUserStep(a: Action) { IsOtherStep(a) || a.AddNow? || a.Cancel? }

  predicate IsOtherStep(a: Action) { a.Tick? || a.Post? }

  function UserSteps(script: seq<Action>): seq<Action> {
    if script == [] then []
    else UserSteps(script[..|script| - 1]) + if IsUserStep(script[|script| - 1]) then [script[|script| - 1]] else []
  }

  function OtherSteps(script: seq<Action>): seq<Action> {
    if script == [] then []
    else OtherSteps(script[..|script| - 1]) + if IsOtherStep(script[|script| - 1]) then [script[|script| - 1]] else []
  }

  function Script(scripts: seq<seq<Action>>, i: nat): seq<Action> {
    if i < |scripts| then scripts[i] else []
  }

  /** All that happens in handleRead up to the n-th callback's end. */
  function ReadTrace(scripts: seq<seq<Action>>, n: nat): seq<Action> {
    if n == 0 then [Collect] + OtherSteps(Script(scripts, 0))
    else ReadTrace(scripts, n - 1) + [Fire] + UserSteps(Script(scripts, n))
  }

  class TimerQueue {
    var clock: int
    var created: nat
    var heap: map<nat, Timer>
    var queued: set<nat>
    var timers: seq<Entry>
    var active: set<ActiveTimer>
    var canceling: set<ActiveTimer>
    var calling: bool
    var timerfd: Option<int>
    ghost var armed: int
    ghost var phase: Phase
    ghost var batches: nat
    ghost var ran: seq<Firing>
    ghost var trace: seq<Action>
    ghost const start: int

    ghost function Abs(): State
      reads this
    {
      State(clock, created, heap, queued, timers, active, canceling, calling, timerfd, armed, phase, batches, ran)
    }

    ghost predicate Ok()
      reads this
    {
      Abs() == After(start, trace)
    }

    constructor (clock: int)
      ensures Ok() && start == clock && trace == [] && Abs() == Start(clock)
    {
      this.clock, start, armed := clock, clock, clock;
      created, heap, queued, timers, active, canceling := 0, map[], {}, [], {}, {};
      calling, timerfd, phase, batches, ran, trace := false, None, Idle, 0, [], [];
    }

    ghost method Commit(a: Action, before: State)
      requires before == After(start, trace) && Abs() == Do(before, a)
      modifies this`trace
      ensures Ok() && trace == old(trace) + [a]
    {
      assert (trace + [a])[..|trace|] == trace;
      trace := trace + [a];
    }

    method ResetTimerfd(when: int)
      modifies this`timerfd, this`armed
      ensures Abs() == Arm(old(Abs()), when)
    {
      var ts := HowMuchTimeFromNow(when, clock);
      TimespecExact(when, clock);
      timerfd := Some(clock + ts.sec * MICROS_PER_SECOND + ts.nsec / 1000);
      armed := clock;
    }

    /** insert: both sets take the timer, and neither had it. */
    method InsertIndexes(addr: nat) returns (earliestChanged: bool)
      requires addr in heap && EntryOf(heap, addr) !in timers && ActiveOf(heap, addr) !in active
      modifies this`timers, this`active
      ensures Abs() == InsertTimer(old(Abs()), addr) && earliestChanged == old(EarliestChanged(Abs(), addr))
      ensures heap == old(heap) && timerfd == old(timerfd)
    {
      var when := heap[addr].expiration;
      earliestChanged := timers == [] || when < timers[0].when;
      timers := Insert(timers, Entry(when, addr));
      active := active + {ActiveTimer(addr, heap[addr].sequence)};
    }

    /** addTimer called in another thread, up to the hand-over to the loop. */
    method Post(addr: nat, when: int, interval: int, repeat: bool) returns (id: ActiveTimer)
      requires Ok() && CanAllocate(Abs(), addr, interval, repeat)
      modifies this
      ensures Ok() && trace == old(trace) + [Action.Post(addr, when, interval, repeat)]
      ensures Issued(Abs(), id) && id.addr == addr && queued == old(queued) + {addr}
      ensures id.sequence == old(created) + 1 == created
      ensures heap == old(heap)[addr := Timer(when, interval, repeat, id.sequence)]
      ensures phase == old(phase) && batches == old(batches)
    {
      hide Inv, After, Issued;
      ghost var before := Abs();
      created := created + 1;
      heap := heap[addr := Timer(when, interval, repeat, created)];
      queued := queued + {addr};
      id := ActiveTimer(addr, created);
      FreshIdIsIssued(before, addr, when, interval, repeat);
      Commit(Action.Post(addr, when, interval, repeat), before);
    }

    static lemma FreshIdIsIssued(s: State, addr: nat, when: int, interval: int, repeat: bool)
      requires Inv(s) && addr !in s.heap
      ensures Issued(Allocate(s, addr, when, interval, repeat), ActiveTimer(addr, s.created + 1))
    {}

    method AddTimerInLoop(addr: nat)
      requires Inv(Abs()) && addr in queued
      modifies this`timers, this`active, this`timerfd, this`armed, this`queued
      ensures Abs() == AddInLoop(old(Abs()), addr)
    {
      AddOwned(Abs(), Collected(Abs()), addr);
      queued := queued - {addr};
      var earliestChanged := InsertIndexes(addr);
      if earliestChanged {
        ResetTimerfd(heap[addr].expiration);
      }
    }

    static lemma QueuedIsLive(s: State, addr: nat)
      requires Inv(s) && addr in s.queued
      ensures addr in s.heap
    {}

    method RunPosted(addr: nat)
      requires Ok() && phase.Idle? && addr in queued
      modifies this
      ensures Ok() && trace == old(trace) + [Action.RunPosted(addr)]
      ensures addr in heap && InIndexes(Abs(), addr)
    {
      hide Inv, After, InIndexes, AddInLoop;
      ghost var before := Abs();
      QueuedIsLive(before, addr);
      AddTimerInLoop(addr);
      AddPutsIn(before, addr);
      Commit(Action.RunPosted(addr), before);
    }

    /** addTimer called in the loop thread. */
    method AddTimer(addr: nat, when: int, interval: int, repeat: bool) returns (id: ActiveTimer)
      requires Ok() && InUserCode(Abs()) && CanAllocate(Abs(), addr, interval, repeat)
      modifies this
      ensures Ok() && trace == old(trace) + [AddNow(addr, when, interval, repeat)]
      ensures id == ActiveTimer(addr, old(created) + 1) && created == old(created) + 1
      ensures heap == old(heap)[addr := Timer(when, interval, repeat, id.sequence)] && InIndexes(Abs(), addr)
      ensures phase == old(phase) && batches == old(batches)
    {
      hide Inv, After, InIndexes, AddInLoop;
      ghost var before := Abs();
      AllocateKeeps(before, addr, when, interval, repeat);
      created := created + 1;
      heap := heap[addr := Timer(when, interval, repeat, created)];
      queued := queued + {addr};
      id := ActiveTimer(addr, created);
      assert Abs() == Allocate(before, addr, when, interval, repeat);
      AddTimerInLoop(addr);
      AddPutsIn(Allocate(before, addr, when, interval, repeat), addr);
      Commit(AddNow(addr, when, interval, repeat), before);
    }

    method CancelTimer(id: ActiveTimer)
      requires Ok() && InUserCode(Abs())
      modifies this
      ensures Ok() && trace == old(trace) + [Cancel(id)]
      ensures phase == old(phase) && batches == old(batches)
      ensures id !in active && |timers| == |active|
      ensures heap == (if id in old(active) then old(heap) - {id.addr} else old(heap)) && timerfd == old(timerfd)
      ensures canceling == if old(calling) && id !in old(active) then old(canceling) + {id} else old(canceling)
    {
      hide Inv, After, Owned, Erase, Insert, LowerBound, Allocate, AddInLoop, BeginRead, RunNext, EndRead;
      ghost var before := Abs();
      SameSizes(before);
      InvOwned(before);
      CancelOwned(before, Collected(before), id);
      CancelKeeps(before, id);
      if id in active {
        timers := Erase(timers, Entry(heap[id.addr].expiration, id.addr));
        heap := heap - {id.addr};
        active := active - {id};
      } else if calling {
        canceling := canceling + {id};
      }
      SameSizes(Abs());
      Commit(Cancel(id), before);
    }

    static lemma SameSizes(s: State)
      requires Inv(s)
      ensures |s.timers| == |s.active|
    {
      SizesAgree(s.heap, s.timers, s.active);
    }

    method Tick(d: nat)
      requires Ok()
      modifies this
      ensures Ok() && trace == old(trace) + [Action.Tick(d)] && clock == old(clock) + d
      ensures phase == old(phase) && batches == old(batches)
    {
      ghost var before := Abs();
      clock := clock + d;
      Commit(Action.Tick(d), before);
    }

    /** A step that is not possible now does nothing. */
    ghost method Refuse(a: Action)
      requires Ok() && !Enabled(Abs(), a)
      modifies this`trace
      ensures Ok() && trace == old(trace) + [a]
    {
      Commit(a, Abs());
    }

    method Try(a: Action)
      requires Ok() && IsUserStep(a) && (IsOtherStep(a) || InUserCode(Abs()))
      modifies this
      ensures Ok() && trace == old(trace) + [a] && phase == old(phase) && batches == old(batches)
    {
      hide After, Inv;
      match a {
        case Tick(d) => Tick(d);
        case Post(addr, when, interval, repeat) =>
          if addr !in heap && addr < UINTPTR_MAX && (repeat ==> interval >= 0) {
            var _ := Post(addr, when, interval, repeat);
          } else {
            Refuse(a);
          }
        case AddNow(addr, when, interval, repeat) =>
          if addr !in heap && addr < UINTPTR_MAX && (repeat ==> interval >= 0) {
            var _ := AddTimer(addr, when, interval, repeat);
          } else {
            Refuse(a);
          }
        case Cancel(id) => CancelTimer(id);
        case _ =>
      }
    }

    /** A callback, and whatever other threads and the clock do while it runs. */
    method Callback(script: seq<Action>)
      requires Ok() && InUserCode(Abs())
      modifies this
      ensures Ok() && trace == old(trace) + UserSteps(script) && phase == old(phase) && batches == old(batches)
    {
      hide After, Inv;
      for i := 0 to |script|
        invariant Ok() && trace == old(trace) + UserSteps(script[..i])
        invariant phase == old(phase) && batches == old(batches)
      {
        assert script[..i + 1][..i] == script[..i];
        if IsUserStep(script[i]) { Try(script[i]); }
      }
      assert script[..|script|] == script;
    }

    /** What other threads and the clock do while no code of the user runs. */
    method Meanwhile(script: seq<Action>)
      requires Ok() && phase.Batch?
      modifies this
      ensures Ok() && trace == old(trace) + OtherSteps(script) && phase == old(phase) && batches == old(batches)
    {
      hide After, Inv;
      for i := 0 to |script|
        invariant Ok() && trace == old(trace) + OtherSteps(script[..i])
        invariant phase == old(phase) && batches == old(batches)
      {
        assert script[..i + 1][..i] == script[..i];
        if IsOtherStep(script[i]) { Try(script[i]); }
      }
      assert script[..|script|] == script;
    }

    /** getExpired: moves out what is due, from both sets. */
    method GetExpired(now: int) returns (expired: seq<Entry>)
      requires Owned(Abs(), [])
      modifies this`timers, this`active
      ensures var k := ExpiredCount(old(Abs()), now);
              expired == old(timers)[..k] && timers == old(timers)[k..]
      ensures forall e | e in expired :: e.addr in heap
      ensures active == old(active) - ActivesOf(heap, expired)
    {
      hide Owned, LowerBound;
      var k := LowerBound(timers, Entry(now, UINTPTR_MAX));
      AtLowerBound(Abs(), now);
      assert k == |timers| || now < timers[k].when;
      expired := timers[..k];
      CollectedApart(Abs(), expired, k);
      timers := timers[k..];
      EraseActives(expired);
    }

    static lemma AtLowerBound(s: State, now: int)
      requires Owned(s, [])
      ensures var k := LowerBound(s.timers, Entry(now, UINTPTR_MAX));
              && k <= |s.timers| && (k < |s.timers| ==> now < s.timers[k].when)
              && forall e | e in s.timers[..k] :: e.addr in s.heap && ActiveOf(s.heap, e.addr) in s.active
    {
      CollectSplits(s, now);
      var k := LowerBound(s.timers, Entry(now, UINTPTR_MAX));
      hide LowerBound, Sorted;
      if k < |s.timers| { assert s.timers[k..][0] == s.timers[k]; }
      assert forall e | e in s.timers[..k] :: e in s.timers;
    }

    static lemma CollectedApart(s: State, expired: seq<Entry>, k: nat)
      requires Owned(s, []) && k <= |s.timers| && expired == s.timers[..k]
      ensures forall i, j :: 0 <= i < j < |expired| ==> expired[i].addr != expired[j].addr
    {
      forall i, j | 0 <= i < j < |expired|
        ensures expired[i].addr != expired[j].addr
      {
        assert expired[i] in s.timers && expired[j] in s.timers && Less(s.timers[i], s.timers[j]);
      }
    }

    /** Each erase finds its timer. */
    method EraseActives(expired: seq<Entry>)
      requires forall e | e in expired :: e.addr in heap && ActiveOf(heap, e.addr) in active
      requires forall i, j :: 0 <= i < j < |expired| ==> expired[i].addr != expired[j].addr
      modifies this`active
      ensures active == old(active) - ActivesOf(heap, expired)
    {
      ghost var done: set<ActiveTimer> := {};
      for i := 0 to |expired|
        invariant active == old(active) - done
        invariant forall a | a in done :: exists j :: 0 <= j < i && a == ActiveOf(heap, expired[j].addr)
        invariant forall j :: 0 <= j < i ==> ActiveOf(heap, expired[j].addr) in done
      {
        var timer := ActiveTimer(expired[i].addr, heap[expired[i].addr].sequence);
        assert timer in active;
        active := active - {timer};
        done := done + {timer};
      }
      assert done == ActivesOf(heap, expired);
    }

    /** reset: restarts the periodic timers of the batch that were not cancelled, and frees the others. */
    method Reset(expired: seq<Entry>, now: int)
      requires Owned(Abs(), expired)
      modifies this`heap, this`timers, this`active, this`timerfd, this`armed
      ensures var t := ResetAll(old(Abs()), expired, now);
              Abs() == if t.timers != [] && t.timers[0].when > 0 then Arm(t, t.timers[0].when) else t
    {
      hide Owned, Arm;
      for i := 0 to |expired|
        invariant Owned(Abs(), expired[i..])
        invariant ResetAll(Abs(), expired[i..], now) == ResetAll(old(Abs()), expired, now)
      {
        var e := expired[i];
        ghost var rest := expired[i..];
        assert rest[0] == e && rest[1..] == expired[i + 1..];
        ResetOwned(Abs(), rest, now);
        ResetEntry(e, now, rest);
      }
      assert expired[|expired|..] == [];
      if timers != [] && timers[0].when > 0 {
        FirstFits(Abs());
        ResetTimerfd(heap[timers[0].addr].expiration);
      }
    }

    method ResetEntry(e: Entry, now: int, ghost es: seq<Entry>)
      requires es != [] && es[0] == e && Owned(Abs(), es) && e.addr in heap
      modifies this`heap, this`timers, this`active
      ensures Abs() == ResetOne(old(Abs()), e, now)
    {
      var timer := ActiveTimer(e.addr, heap[e.addr].sequence);
      if heap[e.addr].repeat && timer !in canceling {
        FirstApart(Abs(), es);
        NotIndexed(Abs(), es);
        heap := heap[e.addr := heap[e.addr].Restarted(now)];
        var _ := InsertIndexes(e.addr);
      } else {
        heap := heap - {e.addr};
      }
    }

    static lemma NotIndexed(s: State, es: seq<Entry>)
      requires Owned(s, es) && es != []
      ensures es[0].addr in s.heap && ActiveOf(s.heap, es[0].addr) !in s.active
    {
      FirstApart(s, es);
    }

    /** readTimerfd: a timer that has gone off reads as unarmed from here on. */
    method DrainTimerfd(now: int)
      modifies this`timerfd
      ensures Abs() == ReadTimerfd(old(Abs()), now)
    {
      if timerfd.Some? && timerfd.value <= now {
        timerfd := None;
      }
    }

    /** handleRead up to its loop. */
    method CollectBatch() returns (expired: seq<Entry>, now: int)
      requires Ok() && phase.Idle?
      modifies this
      ensures Ok() && trace == old(trace) + [Collect] && phase == Batch(now, expired, 0) && now == old(clock)
      ensures |expired| == ExpiredCount(old(Abs()), now)
      ensures batches == old(batches) + 1
    {
      hide Inv, After, Owned, ExpiredCount, ReadTimerfd, Do, BeginRead;
      ghost var before := Abs();
      InvOwned(before);
      CollectIs(before);
      now := clock;
      DrainTimerfd(now);
      ReadKeepsRest(before, now);
      TimerfdIsApart(before, Abs());
      expired := GetExpired(now);
      calling := true;
      canceling := {};
      phase, batches := Batch(now, expired, 0), batches + 1;
      Commit(Collect, before);
    }

    static lemma CollectIs(s: State)
      requires Inv(s) && s.phase.Idle?
      ensures var k := ExpiredCount(s, s.clock);
              && k <= |s.timers| && (forall e | e in s.timers[..k] :: e.addr in s.heap)
              && Do(s, Collect) == s.(fd := ReadTimerfd(s, s.clock).fd, timers := s.timers[k..],
                                      active := s.active - ActivesOf(s.heap, s.timers[..k]), canceling := {},
                                      calling := true, phase := Batch(s.clock, s.timers[..k], 0),
                                      batches := s.batches + 1)
    {}

    static lemma ReadKeepsRest(s: State, now: int)
      ensures ReadTimerfd(s, now) == s.(fd := ReadTimerfd(s, now).fd)
    {}

    static lemma TimerfdIsApart(s: State, t: State)
      requires Owned(s, []) && t == ReadTimerfd(s, s.clock)
      ensures Owned(t, []) && ExpiredCount(t, s.clock) == ExpiredCount(s, s.clock)
    {
      SameOwned(s, t, []);
    }

    static lemma CollectedLives(s: State, e: Entry)
      requires Inv(s) && e in Collected(s)
      ensures e.addr in s.heap
    {}

    /** it->second->run(), up to the callback's own code. */
    method FireNext(ghost expired: seq<Entry>, ghost now: int, ghost i: nat)
      requires Ok() && i < |expired| && phase == Batch(now, expired, i)
      modifies this
      ensures Ok() && trace == old(trace) + [Fire] && phase == Batch(now, expired, i + 1)
      ensures expired[i].addr in heap && batches == old(batches)
      ensures ran == old(ran) + [Firing(batches, heap[expired[i].addr].sequence)]
    {
      hide Inv, After;
      ghost var before := Abs();
      CollectedLives(before, expired[i]);
      ran := ran + [Firing(batches, heap[expired[i].addr].sequence)];
      phase := Batch(now, expired, i + 1);
      Commit(Fire, before);
    }

    /** handleRead after its loop. */
    method FinishBatch(expired: seq<Entry>, now: int)
      requires Ok() && phase == Batch(now, expired, |expired|)
      modifies this
      ensures Ok() && trace == old(trace) + [Finish] && phase.Idle? && !calling && batches == old(batches)
      ensures Starved(Abs()) <==> old(Skips(Abs()))
      ensures Starved(Abs()) ==> now <= 0 && timers[0].when <= 0
    {
      hide Inv, After, Owned, ResetAll;
      ghost var before := Abs();
      EndReadArms(before);
      InvOwned(before);
      calling := false;
      SameOwned(before, Abs(), expired);
      ghost var t := ResetAll(Abs(), expired, now);
      if t.timers != [] { FirstFits(t); }
      Reset(expired, now);
      phase := Idle;
      assert Abs() == EndRead(before);
      Commit(Finish, before);
    }

    /** handleRead, with what happens before the first callback and during each. */
    method HandleRead(scripts: seq<seq<Action>>)
      requires Ok() && phase.Idle?
      modifies this
      ensures Ok() && phase.Idle? && !calling && batches == old(batches) + 1
      ensures trace == old(trace) + ReadTrace(scripts, ExpiredCount(old(Abs()), old(clock))) + [Finish]
      ensures Starved(Abs()) ==> old(clock) <= 0 && timers[0].when <= 0
    {
      hide After, Inv, ExpiredCount, UserSteps, OtherSteps, Starved;
      var expired, now := CollectBatch();
      Meanwhile(Script(scripts, 0));
      for i := 0 to |expired|
        invariant Ok() && batches == old(batches) + 1 && phase == Batch(now, expired, i)
        invariant trace == old(trace) + ReadTrace(scripts, i)
      {
        FireNext(expired, now, i);
        Callback(Script(scripts, i + 1));
      }
      FinishBatch(expired, now);
    }
  }
}
