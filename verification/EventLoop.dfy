/**
 * The EventLoop class. Its object is always in a state of some run of the wakeup protocol, so all
 * that WakeupProtocol proves of runs holds of it, however other threads interleave.
 */
module EventLoopClass {
  import opened WakeupProtocol

  /** What a functor or an event handler does to the loop it runs in. */
  datatype Call = Queue(f: Functor) | Quit

  /** One return from poll: handlers run before and after that of the eventfd, if it is reported. */
  datatype PollResult = PollResult(before: seq<Call>, wakeup: bool, after: seq<Call>)

  /** What the loop thread's own user code called, by the trace. */
  function OwnCalls(trace: seq<Action>): seq<Call> {
    if trace == [] then [] else OwnCalls(trace[..|trace| - 1]) + CallOf(trace[|trace| - 1])
  }

  function CallOf(a: Action): seq<Call> {
    match a
    case LoopPush(f) => [Queue(f)]
    case LoopQuit => [Quit]
    case _ => []
  }

  lemma OwnCallsOneMore(trace: seq<Action>, a: Action)
    ensures OwnCalls(trace + [a]) == OwnCalls(trace) + CallOf(a)
  {
    assert (trace + [a])[..|trace|] == trace;
  }

  /** The steps of other threads. */
  function Foreign(acts: seq<Action>): seq<Action> {
    if acts == [] then []
    else Foreign(acts[..|acts| - 1]) + if IsForeign(acts[|acts| - 1]) then [acts[|acts| - 1]] else []
  }

  predicate IsForeign(a: Action) { a.Push? || a.Wake? || a.SetQuit? || a.WakeQuit? }

  /** What these functors call, one after the other. */
  function Bodies(functors: seq<Functor>, body: Functor -> seq<Call>): seq<Call> {
    if functors == [] then []
    else Bodies(functors[..|functors| - 1], body) + body(functors[|functors| - 1])
  }

  lemma BodiesOneMore(functors: seq<Functor>, i: nat, body: Functor -> seq<Call>)
    requires i < |functors|
    ensures Bodies(functors[..i + 1], body) == Bodies(functors[..i], body) + body(functors[i])
  {
    assert functors[..i + 1][..i] == functors[..i];
  }

  lemma NoBodies(body: Functor -> seq<Call>)
    ensures Bodies([], body) == [] && Joined([]) == []
    ensures forall polls :: IterationCalls(polls, [], body) == []
  {}

  /** What the handlers and functors of so many iterations call, given the functors run in each. */
  function IterationCalls(polls: seq<PollResult>, batches: seq<seq<Functor>>, body: Functor -> seq<Call>): seq<Call>
    requires |batches| <= |polls|
  {
    if batches == [] then []
    else
      var n := |batches| - 1;
      IterationCalls(polls, batches[..n], body) + polls[n].before + polls[n].after + Bodies(batches[n], body)
  }

  function Joined(batches: seq<seq<Functor>>): seq<Functor> {
    if batches == [] then [] else Joined(batches[..|batches| - 1]) + batches[|batches| - 1]
  }

  lemma IterationCallsOneMore(polls: seq<PollResult>, batches: seq<seq<Functor>>, batch: seq<Functor>,
                              body: Functor -> seq<Call>)
    requires |batches| < |polls|
    ensures var n := |batches|;
            IterationCalls(polls, batches + [batch], body)
            == IterationCalls(polls, batches, body) + polls[n].before + polls[n].after + Bodies(batch, body)
    ensures Joined(batches + [batch]) == Joined(batches) + batch
  {
    assert (batches + [batch])[..|batches|] == batches;
  }

  /** What a loop object had behind it when loop() was entered. */
  datatype Entry = Entry(trace: seq<Action>, history: seq<Functor>, executed: seq<Functor>, calls: seq<Call>)

  /** Places of a trace at which a pass begins. */
  ghost predicate PassStarts(starts: seq<nat>, trace: seq<Action>) {
    forall n :: 0 <= n < |starts| ==>
      starts[n] < |trace| && trace[starts[n]] == BeginPass && Enabled(Run(INIT, trace[..starts[n]]), BeginPass)
  }

  lemma NoPassStarts(trace: seq<Action>)
    ensures PassStarts([], trace)
  {}

  /** They stay so when the trace grows. */
  lemma PassStartsLast(starts: seq<nat>, trace: seq<Action>, more: seq<Action>)
    requires PassStarts(starts, trace) && trace <= more
    ensures PassStarts(starts, more)
  {
    forall n | 0 <= n < |starts|
      ensures more[..starts[n]] == trace[..starts[n]] && more[starts[n]] == trace[starts[n]]
    {}
  }

  class EventLoop {
    var looping: bool
    var quit: bool
    var callingPendingFunctors: bool
    var pendingFunctors: seq<Functor>
    var wakeupFd: nat

    // The other threads: who is between two statements, and what they do at each coming pause.
    var pushed: set<ThreadId>
    var quitting: set<ThreadId>
    var schedule: seq<seq<Action>>

    ghost var pc: LoopPc
    ghost var batch: seq<Functor>
    ghost var executed: seq<Functor>
    ghost var history: seq<Functor>
    ghost var passEnd: nat
    ghost var unwoken: bool
    ghost var trace: seq<Action>

    ghost function Abs(): State
      reads this
    {
      State(pc, quit, callingPendingFunctors, pendingFunctors, wakeupFd, pushed, quitting,
            batch, executed, history, passEnd, unwoken)
    }

    ghost predicate Ok()
      reads this
    {
      Abs() == Run(INIT, trace) && Inv(Abs()) && (looping <==> !pc.Outside?)
    }

    /** What no step of another thread changes. */
    ghost function OwnState(): (bool, LoopPc, bool, seq<Functor>, seq<Functor>, nat)
      reads this
    {
      (looping, pc, callingPendingFunctors, batch, executed, passEnd)
    }

    ghost function Calls(): seq<Call>
      reads this
    {
      OwnCalls(trace)
    }

    constructor (schedule: seq<seq<Action>>)
      ensures Ok() && Abs() == INIT && !looping
    {
      looping, quit, callingPendingFunctors := false, false, false;
      pendingFunctors, wakeupFd := [], 0;
      pushed, quitting := {}, {};
      this.schedule := schedule;
      pc, batch, executed, history, passEnd, unwoken, trace := Outside, [], [], [], 0, false, [];
    }

    ghost method Commit(a: Action, before: State)
      requires before == Run(INIT, trace) && Inv(before) && Abs() == Do(before, a)
      requires looping <==> !pc.Outside?
      modifies this`trace
      ensures Ok() && trace == old(trace) + [a]
      ensures Calls() == if CallOf(a) == [] then old(Calls()) else old(Calls()) + CallOf(a)
    {
      assert (trace + [a])[..|trace|] == trace;
      OwnCallsOneMore(trace, a);
      DoKeepsInv(before, a);
      trace := trace + [a];
    }

    // -------------------------------------------------------------------
    // Steps of other threads
    // -------------------------------------------------------------------

    method Wakeup()
      modifies this`wakeupFd
      ensures wakeupFd == Bump(old(wakeupFd))
    {
      if wakeupFd < EVENTFD_MAX {
        wakeupFd := wakeupFd + 1;
      }
    }

    method PushFrom(t: ThreadId, f: Functor)
      requires Ok() && Enabled(Abs(), Push(t, f))
      modifies this
      ensures Ok() && Abs() == Do(old(Abs()), Push(t, f)) && trace == old(trace) + [Push(t, f)]
      ensures schedule == old(schedule) && OwnState() == old(OwnState()) && Calls() == old(Calls())
      ensures pendingFunctors == old(pendingFunctors) + [f] && history == old(history) + [f]
      ensures pushed == old(pushed) + {t}
    {
      ghost var before := Abs();
      pendingFunctors := pendingFunctors + [f];
      pushed := pushed + {t};
      history := history + [f];
      Commit(Push(t, f), before);
    }

    method SetQuitFrom(t: ThreadId)
      requires Ok() && Enabled(Abs(), SetQuit(t))
      modifies this
      ensures Ok() && Abs() == Do(old(Abs()), SetQuit(t)) && trace == old(trace) + [SetQuit(t)]
      ensures schedule == old(schedule) && OwnState() == old(OwnState()) && Calls() == old(Calls())
      ensures quit && quitting == old(quitting) + {t} && history == old(history)
    {
      ghost var before := Abs();
      quit := true;
      quitting := quitting + {t};
      Commit(SetQuit(t), before);
    }

    /** The wakeup() that ends queueInLoop in another thread. */
    method WakeFrom(t: ThreadId)
      requires Ok() && t in pushed
      modifies this
      ensures Ok() && trace == old(trace) + [Wake(t)] && wakeupFd > 0 && pushed == old(pushed) - {t}
      ensures schedule == old(schedule) && history == old(history)
      ensures OwnState() == old(OwnState()) && Calls() == old(Calls())
    {
      ghost var before := Abs();
      Wakeup();
      pushed := pushed - {t};
      Commit(Wake(t), before);
    }

    /** The wakeup() that ends quit in another thread. */
    method WakeQuitFrom(t: ThreadId)
      requires Ok() && t in quitting
      modifies this
      ensures Ok() && trace == old(trace) + [WakeQuit(t)] && wakeupFd > 0 && quitting == old(quitting) - {t}
      ensures schedule == old(schedule) && history == old(history)
      ensures OwnState() == old(OwnState()) && Calls() == old(Calls())
    {
      ghost var before := Abs();
      Wakeup();
      quitting := quitting - {t};
      Commit(WakeQuit(t), before);
    }

    /** The other threads try the steps planned for this moment; one that is not possible does nothing. */
    method Pause()
      requires Ok()
      modifies this
      ensures Ok() && OwnState() == old(OwnState()) && Calls() == old(Calls()) && old(history) <= history
      ensures if old(schedule) == [] then trace == old(trace) && schedule == []
              else trace == old(trace) + Foreign(old(schedule)[0]) && schedule == old(schedule)[1..]
    {
      hide Run, Inv;
      if schedule == [] { return; }
      var acts := schedule[0];
      schedule := schedule[1..];
      for i := 0 to |acts|
        invariant Ok() && OwnState() == old(OwnState()) && Calls() == old(Calls()) && old(history) <= history
        invariant trace == old(trace) + Foreign(acts[..i]) && schedule == old(schedule)[1..]
      {
        assert acts[..i + 1][..i] == acts[..i];
        if IsForeign(acts[i]) { TryForeign(acts[i]); }
      }
      assert acts[..|acts|] == acts;
    }

    method TryForeign(a: Action)
      requires Ok() && IsForeign(a)
      modifies this
      ensures Ok() && trace == old(trace) + [a] && schedule == old(schedule)
      ensures OwnState() == old(OwnState()) && Calls() == old(Calls()) && old(history) <= history
    {
      hide Run, Inv;
      match a {
        case Push(t, f) =>
          if t !in pushed && t !in quitting { PushFrom(t, f); } else { Refuse(a); }
        case SetQuit(t) =>
          if t !in pushed && t !in quitting { SetQuitFrom(t); } else { Refuse(a); }
        case Wake(t) => if t in pushed { WakeFrom(t); } else { Refuse(a); }
        case WakeQuit(t) => if t in quitting { WakeQuitFrom(t); } else { Refuse(a); }
        case _ =>
      }
    }

    ghost method Refuse(a: Action)
      requires Ok() && !Enabled(Abs(), a) && IsForeign(a)
      modifies this`trace
      ensures Ok() && trace == old(trace) + [a] && OwnState() == old(OwnState()) && Calls() == old(Calls())
    {
      Commit(a, Abs());
    }

    // -------------------------------------------------------------------
    // The loop thread
    // -------------------------------------------------------------------

    /** The locked push of queueInLoop, in the loop thread; says whether a wakeup is due. */
    method PushOwn(f: Functor) returns (wake: bool)
      requires Ok() && InUserCode(pc)
      modifies this
      ensures Ok() && trace == old(trace) + [LoopPush(f)] && history == old(history) + [f]
      ensures wake <==> old(pc).Running?
      ensures pc == if wake then Waking else old(pc)
      ensures OwnState() == old(OwnState()).(1 := pc) && Calls() == old(Calls()) + [Queue(f)]
    {
      ghost var before := Abs();
      pendingFunctors := pendingFunctors + [f];
      history := history + [f];
      wake := callingPendingFunctors;
      if wake { pc := Waking; } else { unwoken := unwoken || pc.Outside?; }
      Commit(LoopPush(f), before);
    }

    method WakeOwn()
      requires Ok() && pc.Waking?
      modifies this
      ensures Ok() && trace == old(trace) + [LoopWake] && history == old(history)
      ensures OwnState() == old(OwnState()).(1 := Running) && Calls() == old(Calls())
    {
      ghost var before := Abs();
      Wakeup();
      pc := Running;
      Commit(LoopWake, before);
    }

    /** queueInLoop called in the loop thread. */
    method QueueInLoop(f: Functor)
      requires Ok() && InUserCode(pc)
      modifies this
      ensures Ok() && old(trace) + [LoopPush(f)] <= trace
      ensures OwnState() == old(OwnState()) && Calls() == old(Calls()) + [Queue(f)] && old(history) + [f] <= history
    {
      hide Run, Inv;
      var wake := PushOwn(f);
      if wake {
        Pause();
        WakeOwn();
      }
    }

    /** quit called in the loop thread, which needs no wakeup. */
    method QuitOwn()
      requires Ok() && InUserCode(pc)
      modifies this
      ensures Ok() && quit && trace == old(trace) + [LoopQuit] && history == old(history)
      ensures OwnState() == old(OwnState()) && Calls() == old(Calls()) + [Quit]
    {
      ghost var before := Abs();
      quit := true;
      Commit(LoopQuit, before);
    }

    /** Code of the program's user, running in the loop thread. */
    method Perform(calls: seq<Call>)
      requires Ok() && InUserCode(pc)
      modifies this
      ensures Ok() && old(trace) <= trace && old(history) <= history
      ensures OwnState() == old(OwnState()) && Calls() == old(Calls()) + calls
    {
      hide Run, Inv, Ok, Abs, Calls;
      for i := 0 to |calls|
        invariant Ok() && old(trace) <= trace && old(history) <= history
        invariant OwnState() == old(OwnState()) && Calls() == old(Calls()) + calls[..i]
      {
        Pause();
        match calls[i] {
          case Queue(f) => QueueInLoop(f);
          case Quit => QuitOwn();
        }
      }
      assert calls[..|calls|] == calls;
    }

    method HandleRead()
      requires Ok() && pc == Handling(true)
      modifies this
      ensures Ok() && pc == Handling(false) && wakeupFd == 0 && trace == old(trace) + [WakeupProtocol.HandleRead]
      ensures looping == old(looping) && history == old(history) && executed == old(executed) && Calls() == old(Calls())
    {
      ghost var before := Abs();
      wakeupFd := 0;
      pc := Handling(false);
      Commit(WakeupProtocol.HandleRead, before);
    }

    method BeginPass()
      requires Ok() && pc == Handling(false)
      modifies this
      ensures Ok() && pc == Claiming && looping && trace == old(trace) + [WakeupProtocol.BeginPass]
      ensures history == old(history) && executed == old(executed) && Calls() == old(Calls())
    {
      ghost var before := Abs();
      callingPendingFunctors := true;
      pc := Claiming;
      Commit(WakeupProtocol.BeginPass, before);
    }

    method SwapOut() returns (functors: seq<Functor>)
      requires Ok() && pc == Claiming
      modifies this
      ensures Ok() && pc == Running && looping && trace == old(trace) + [Swap]
      ensures batch == functors && executed + functors == history == old(history) && passEnd == |history|
      ensures executed == old(executed) && Calls() == old(Calls())
    {
      ghost var before := Abs();
      assert executed + [] + pendingFunctors == executed + pendingFunctors;
      functors := pendingFunctors;
      pendingFunctors := [];
      batch, passEnd, unwoken, pc := functors, |history|, false, Running;
      Commit(Swap, before);
    }

    method StartNext()
      requires Ok() && pc == Running && batch != []
      modifies this
      ensures Ok() && trace == old(trace) + [RunNext] && history == old(history)
      ensures executed == old(executed) + [old(batch)[0]]
      ensures OwnState() == old(OwnState()).(3 := old(batch)[1..], 4 := executed) && Calls() == old(Calls())
    {
      ghost var before := Abs();
      executed := executed + [batch[0]];
      batch := batch[1..];
      Commit(RunNext, before);
    }

    method EndPass()
      requires Ok() && pc == Running && batch == []
      modifies this
      ensures Ok() && trace == old(trace) + [WakeupProtocol.EndPass] && history == old(history)
      ensures OwnState() == old(OwnState()).(1 := Testing, 2 := false) && Calls() == old(Calls())
    {
      ghost var before := Abs();
      callingPendingFunctors := false;
      pc := Testing;
      Commit(WakeupProtocol.EndPass, before);
    }

    /** Runs everything pushed before the call, and nothing pushed after its swap. */
    method DoPendingFunctors(body: Functor -> seq<Call>)
      requires Ok() && pc == Handling(false)
      modifies this
      ensures Ok() && pc == Testing && !callingPendingFunctors && looping
      ensures old(trace) + [WakeupProtocol.BeginPass] <= trace
      ensures old(history) <= executed <= history && |executed| == passEnd && old(executed) <= executed
      ensures Calls() == old(Calls()) + Bodies(executed[|old(executed)|..], body)
    {
      hide Run, Inv, Ok, Abs, Calls, Bodies;
      BeginPass();
      Pause();
      var functors := SwapOut();
      ghost var snapshot := history;
      NoBodies(body);
      for i := 0 to |functors|
        invariant Ok() && pc == Running && looping && old(trace) + [WakeupProtocol.BeginPass] <= trace
        invariant batch == functors[i..] && executed + batch == snapshot <= history
        invariant passEnd == |snapshot| && executed == old(executed) + functors[..i]
        invariant Calls() == old(Calls()) + Bodies(functors[..i], body)
      {
        BodiesOneMore(functors, i, body);
        Pause();
        StartNext();
        Perform(body(functors[i]));
      }
      assert functors[..|functors|] == functors;
      Pause();
      EndPass();
    }

    method Enter()
      requires Ok() && !looping
      modifies this
      ensures Ok() && pc == Testing && looping && !quit && trace == old(trace) + [EnterLoop]
      ensures history == old(history) && executed == old(executed) && Calls() == old(Calls())
    {
      ghost var before := Abs();
      looping := true;
      quit := false;
      pc := Testing;
      Commit(EnterLoop, before);
    }

    method Test() returns (leave: bool)
      requires Ok() && pc == Testing
      modifies this
      ensures Ok() && leave == old(quit) && trace == old(trace) + [TestQuit]
      ensures pc == (if leave then Outside else Polling) && looping == !leave
      ensures history == old(history) && executed == old(executed) && Calls() == old(Calls())
    {
      ghost var before := Abs();
      leave := quit;
      if leave { looping := false; }
      pc := if leave then Outside else Polling;
      Commit(TestQuit, before);
    }

    method ReturnFromPoll(reported: bool) returns (wakeup: bool)
      requires Ok() && pc == Polling
      modifies this
      ensures Ok() && wakeup == (reported && wakeupFd > 0) && trace == old(trace) + [PollReturn(wakeup)]
      ensures pc == Handling(wakeup) && looping
      ensures history == old(history) && executed == old(executed) && Calls() == old(Calls())
    {
      ghost var before := Abs();
      wakeup := reported && wakeupFd > 0;
      pc := Handling(wakeup);
      Commit(PollReturn(wakeup), before);
    }

    lemma AsleepMeansDone()
      requires Ok()
      ensures Asleep(Abs()) ==> !quit && (executed == history <==> !PushIsUnswapped(trace))
    {
      SleepsOnlyWhenDone(trace);
    }

    /** The loop has executed what had been pushed when the pass that began at this place of the trace began. */
    ghost predicate PassIsComplete(start: nat)
      reads this
    {
      start < |trace| && trace[start] == WakeupProtocol.BeginPass && Run(INIT, trace[..start]).history <= executed
    }

    lemma PassStartsHere(starts: seq<nat>)
      requires Ok() && pc == Handling(false) && PassStarts(starts, trace)
      ensures PassStarts(starts + [|trace|], trace + [WakeupProtocol.BeginPass])
    {
      var more := trace + [WakeupProtocol.BeginPass];
      assert more[..|trace|] == trace;
      PassStartsLast(starts, trace, more);
    }

    lemma PassesAreComplete(starts: seq<nat>)
      requires Ok() && !InPass(pc) && !pc.Claiming? && PassStarts(starts, trace)
      ensures forall n :: 0 <= n < |starts| ==> PassIsComplete(starts[n])
    {
      forall n | 0 <= n < |starts|
        ensures PassIsComplete(starts[n])
      {
        PassesComplete(trace, starts[n]);
      }
    }

    /** Poll returns and the active channels are handled; other threads run between any two steps of it. */
    method HandleEvents(poll: PollResult)
      requires Ok() && pc == Polling
      modifies this
      ensures Ok() && pc == Handling(false) && looping
      ensures old(trace) <= trace && old(history) <= history && executed == old(executed)
      ensures Calls() == old(Calls()) + poll.before + poll.after
    {
      hide Run, Inv, Ok, Abs, Calls;
      var wakeup := ReturnFromPoll(poll.wakeup);
      Pause();
      Perform(poll.before);
      Pause();
      if wakeup { HandleRead(); }
      Pause();
      Perform(poll.after);
      Pause();
    }

    /** The iterations so far: where their passes begin, what these ran, and what all of it called. */
    ghost predicate Rounds(polls: seq<PollResult>, body: Functor -> seq<Call>, starts: seq<nat>,
                           batches: seq<seq<Functor>>, entry: Entry)
      reads this
    {
      && |starts| == |batches| <= |polls|
      && entry.trace <= trace && PassStarts(starts, trace)
      && (forall n :: 0 <= n < |starts| ==> |entry.trace| <= starts[n])
      && (forall m, n :: 0 <= m < n < |starts| ==> starts[m] < starts[n])
      && entry.history <= history && (starts != [] ==> entry.history <= executed)
      && executed == entry.executed + Joined(batches)
      && Calls() == entry.calls + IterationCalls(polls, batches, body)
    }

    lemma RoundsAtEntry(polls: seq<PollResult>, body: Functor -> seq<Call>, entry: Entry)
      requires entry == Entry(trace, history, executed, Calls())
      ensures Rounds(polls, body, [], [], entry)
    {
      NoPassStarts(trace);
      NoBodies(body);
    }

    /**
     * loop(), given what each poll returns; it comes back unfinished when those run out, which is
     * where the thread would block. Each iteration's pass is listed by its start in the trace and by
     * the functors it ran.
     */
    method Loop(polls: seq<PollResult>, body: Functor -> seq<Call>)
      returns (finished: bool, ghost starts: seq<nat>, ghost batches: seq<seq<Functor>>)
      requires Ok() && !looping
      modifies this
      ensures Ok() && old(trace) <= trace
      ensures if finished then !looping else pc == Polling && |starts| == |polls|
      ensures |starts| == |batches| <= |polls|
      ensures forall n :: 0 <= n < |starts| ==> |old(trace)| <= starts[n] && PassIsComplete(starts[n])
      ensures forall m, n :: 0 <= m < n < |starts| ==> starts[m] < starts[n]
      ensures starts != [] ==> old(history) <= executed
      ensures executed == old(executed) + Joined(batches)
      ensures Calls() == old(Calls()) + IterationCalls(polls, batches, body)
      ensures !finished && Asleep(Abs()) ==> !quit && (executed == history <==> !PushIsUnswapped(trace))
    {
      hide Run, Inv, Ok, Abs, Asleep, PushIsUnswapped, PassStarts, PassIsComplete, Calls, IterationCalls, Joined;
      ghost var entry := Entry(trace, history, executed, Calls());
      RoundsAtEntry(polls, body, entry);
      starts, batches := [], [];
      Begin(polls, body, entry);
      var n := 0;
      while true
        invariant Ok() && pc == Testing && looping && |starts| == n <= |polls|
        invariant Rounds(polls, body, starts, batches, entry)
        decreases |polls| - n
      {
        var leave := TestAndPause(polls, body, starts, batches, entry);
        if leave || n == |polls| {
          AsleepMeansDone();
          PassesAreComplete(starts);
          return leave, starts, batches;
        }
        starts, batches := Iterate(polls, n, body, starts, batches, entry);
        n := n + 1;
      }
    }

    method Begin(polls: seq<PollResult>, body: Functor -> seq<Call>, ghost entry: Entry)
      requires Ok() && !looping && Rounds(polls, body, [], [], entry)
      modifies this
      ensures Ok() && pc == Testing && looping && Rounds(polls, body, [], [], entry)
    {
      hide Run, Inv, Ok, Abs, Calls, PassStarts, IterationCalls, Joined;
      ghost var before := trace;
      Pause();
      Enter();
      PassStartsLast([], before, trace);
    }

    /** while(!M_quit); other threads run before and after. */
    method TestAndPause(polls: seq<PollResult>, body: Functor -> seq<Call>, ghost starts: seq<nat>,
                        ghost batches: seq<seq<Functor>>, ghost entry: Entry) returns (leave: bool)
      requires Ok() && pc == Testing && looping && Rounds(polls, body, starts, batches, entry)
      modifies this
      ensures Ok() && pc == (if leave then Outside else Polling) && looping == !leave
      ensures Rounds(polls, body, starts, batches, entry)
    {
      hide Run, Inv, Ok, Abs, Calls, PassStarts, IterationCalls, Joined;
      ghost var before := trace;
      Pause();
      leave := Test();
      if !leave { Pause(); }
      PassStartsLast(starts, before, trace);
    }

    /** One iteration, from poll to the end of its pass. */
    method Iterate(polls: seq<PollResult>, n: nat, body: Functor -> seq<Call>, ghost starts: seq<nat>,
                   ghost batches: seq<seq<Functor>>, ghost entry: Entry)
      returns (ghost starts': seq<nat>, ghost batches': seq<seq<Functor>>)
      requires Ok() && pc == Polling && n == |starts| < |polls| && Rounds(polls, body, starts, batches, entry)
      modifies this
      ensures Ok() && pc == Testing && looping && |starts'| == n + 1
      ensures Rounds(polls, body, starts', batches', entry)
    {
      hide Run, Inv, Ok, Abs, PassStarts, Calls, Bodies, IterationCalls, Joined;
      StartsAreWithin(starts, trace);
      ghost var before := trace;
      HandleEvents(polls[n]);
      ghost var here, done := trace, executed;
      PassStartsLast(starts, before, here);
      PassStartsHere(starts);
      DoPendingFunctors(body);
      PassStartsLast(starts + [|here|], here + [WakeupProtocol.BeginPass], trace);
      IterationCallsOneMore(polls, batches, executed[|done|..], body);
      starts', batches' := starts + [|here|], batches + [executed[|done|..]];
    }

    static lemma StartsAreWithin(starts: seq<nat>, trace: seq<Action>)
      requires PassStarts(starts, trace)
      ensures forall n :: 0 <= n < |starts| ==> starts[n] < |trace|
    {}
  }
}
