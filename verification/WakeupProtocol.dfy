/**
 * How other threads hand functors to an event loop and wake it: src/EventLoop.cpp.
 *
 * One loop thread and any number of other threads take steps in any order. Each step is one
 * critical section, one system call or one write to a flag.
 */
module WakeupProtocol {

  type ThreadId = nat
  type Functor = nat

  /** Where the loop thread stands. */
  datatype LoopPc =
    | Outside                   // not inside loop(): before it, or after it returned
    | Testing                   // at while(!M_quit)
    | Polling                   // inside poll
    | Handling(wakeup: bool)    // calling handlers; wakeup: the eventfd's handler is still to come
    | Claiming                  // in doPendingFunctors, the flag set and the lock not yet taken
    | Running                   // past the swap, running the batch
    | Waking                    // a functor has pushed another and has yet to write the eventfd

  datatype State = State(
    pc: LoopPc,
    quit: bool,                 // M_quit
    calling: bool,              // M_callingPendingFunctors
    pending: seq<Functor>,      // M_pendingFunctors
    counter: nat,               // the eventfd
    pushed: set<ThreadId>,      // other threads past their push and before their wakeup
    quitting: set<ThreadId>,    // other threads past M_quit = true and before their wakeup
    batch: seq<Functor>,        // what is left of the local vector in doPendingFunctors
    executed: seq<Functor>,     // every functor started so far
    history: seq<Functor>,      // every functor pushed so far, in lock order
    passEnd: nat,               // how many had been pushed at the latest swap
    unwoken: bool               // the loop thread pushed outside loop() since the latest swap
  )

  const INIT := State(Outside, false, false, [], 0, {}, {}, [], [], [], 0, false)

  datatype Action =
    // other threads
    | Push(t: ThreadId, f: Functor)
    | Wake(t: ThreadId)
    | SetQuit(t: ThreadId)
    | WakeQuit(t: ThreadId)
    // the loop thread
    | EnterLoop
    | TestQuit
    | PollReturn(wakeup: bool)
    | HandleRead
    | BeginPass
    | Swap
    | RunNext
    | EndPass
    | LoopPush(f: Functor)      // queueInLoop called by the owner, a handler or a functor
    | LoopWake
    | LoopQuit

  /** eventfd(2): a write that would pass the maximum fails with EAGAIN and changes nothing. */
  const EVENTFD_MAX: nat := 0xffff_ffff_ffff_fffe

  function Bump(counter: nat): (r: nat)
    ensures r > 0
  {
    if counter < EVENTFD_MAX then counter + 1 else counter
  }

  predicate InPass(pc: LoopPc) { pc.Running? || pc.Waking? }

  /** Where the loop thread may be executing code of the program's user. */
  predicate InUserCode(pc: LoopPc) { pc.Outside? || pc.Handling? || pc.Running? }

  predicate Enabled(s: State, a: Action) {
    match a
    case Push(t, _) => t !in s.pushed && t !in s.quitting
    case Wake(t) => t in s.pushed
    case SetQuit(t) => t !in s.pushed && t !in s.quitting
    case WakeQuit(t) => t in s.quitting
    case EnterLoop => s.pc.Outside?
    case TestQuit => s.pc.Testing?
    case PollReturn(wakeup) => s.pc.Polling? && (wakeup ==> s.counter > 0)
    case HandleRead => s.pc == Handling(true)
    case BeginPass => s.pc == Handling(false)
    case Swap => s.pc.Claiming?
    case RunNext => s.pc.Running? && s.batch != []
    case EndPass => s.pc.Running? && s.batch == []
    case LoopPush(_) => InUserCode(s.pc)
    case LoopWake => s.pc.Waking?
    case LoopQuit => InUserCode(s.pc)
  }

  function Pushing(s: State, f: Functor): State {
    s.(pending := s.pending + [f], history := s.history + [f])
  }

  function Effect(s: State, a: Action): State
    requires Enabled(s, a)
  {
    match a
    case Push(t, f) => Pushing(s, f).(pushed := s.pushed + {t})
    case Wake(t) => s.(counter := Bump(s.counter), pushed := s.pushed - {t})
    case SetQuit(t) => s.(quit := true, quitting := s.quitting + {t})
    case WakeQuit(t) => s.(counter := Bump(s.counter), quitting := s.quitting - {t})
    case EnterLoop => s.(pc := Testing, quit := false)
    case TestQuit => s.(pc := if s.quit then Outside else Polling)
    case PollReturn(wakeup) => s.(pc := Handling(wakeup))
    case HandleRead => s.(pc := Handling(false), counter := 0)
    case BeginPass => s.(pc := Claiming, calling := true)
    case Swap =>
      s.(pc := Running, batch := s.pending, pending := [], passEnd := |s.history|, unwoken := false)
    case RunNext => s.(executed := s.executed + [s.batch[0]], batch := s.batch[1..])
    case EndPass => s.(pc := Testing, calling := false)
    case LoopPush(f) =>
      // queueInLoop in the loop thread wakes only while functors are being called
      if s.calling then Pushing(s, f).(pc := Waking)
      else Pushing(s, f).(unwoken := s.unwoken || s.pc.Outside?)
    case LoopWake => s.(pc := Running, counter := Bump(s.counter))
    case LoopQuit => s.(quit := true)
  }

  /** One step; an action that is not possible now does not happen. */
  function Do(s: State, a: Action): State {
    if Enabled(s, a) then Effect(s, a) else s
  }

  function Run(s: State, acts: seq<Action>): State {
    if acts == [] then s else Do(Run(s, acts[..|acts| - 1]), acts[|acts| - 1])
  }

  // ---------------------------------------------------------------------
  // What every step keeps
  // ---------------------------------------------------------------------

  /** From the swap until the next poll returns, nobody but the eventfd can draw attention to a push. */
  predicate MustBeWoken(pc: LoopPc) { !pc.Handling? && !pc.Claiming? }

  predicate WakeupOnItsWay(s: State) {
    s.counter > 0 || s.pushed != {} || s.pc.Waking?
  }

  /** Each functor pushed is in exactly one place, in lock order. */
  predicate InPlace(s: State) { s.executed + s.batch + s.pending == s.history }

  predicate Inv(s: State) {
    && InPlace(s)
    // no lost wakeup, no lost quit
    && (MustBeWoken(s.pc) && s.pending != [] ==> WakeupOnItsWay(s) || s.unwoken)
    && (s.pc.Polling? && s.quit ==> s.counter > 0 || s.quitting != {})
    // the flag says that a pass is on, and a pass runs what had been pushed by its swap
    && (s.calling <==> s.pc.Claiming? || InPass(s.pc))
    && (InPass(s.pc) ==> |s.executed| + |s.batch| == s.passEnd && !s.unwoken)
    && (!InPass(s.pc) ==> s.batch == [])
    && (s.unwoken ==> s.pending != [])
    && (s.pc == Handling(true) ==> s.counter > 0)
  }

  lemma DoKeepsPlaces(s: State, a: Action)
    requires InPlace(s) && (s.pc.Claiming? ==> s.batch == [])
    ensures InPlace(Do(s, a))
  {
    if Enabled(s, a) {
      match a
      case Push(_, f) =>
        assert s.executed + s.batch + (s.pending + [f]) == (s.executed + s.batch + s.pending) + [f];
      case LoopPush(f) =>
        assert s.executed + s.batch + (s.pending + [f]) == (s.executed + s.batch + s.pending) + [f];
      case RunNext =>
        assert (s.executed + [s.batch[0]]) + s.batch[1..] == s.executed + s.batch;
      case Swap =>
        assert s.executed + s.batch == s.executed;
        assert s.executed + s.pending + [] == s.executed + s.pending;
      case _ =>
    }
  }

  lemma DoKeepsInv(s: State, a: Action)
    requires Inv(s)
    ensures Inv(Do(s, a))
  {
    DoKeepsPlaces(s, a);
    if a.Swap? && s.pc.Claiming? { PlacesAtSwap(s); }
    hide InPlace;
  }

  lemma PlacesAtSwap(s: State)
    requires InPlace(s) && s.batch == []
    ensures |s.executed| + |s.pending| == |s.history|
  {}

  lemma {:induction false} RunKeepsInv(s: State, acts: seq<Action>)
    requires Inv(s)
    ensures Inv(Run(s, acts))
  {
    if acts != [] {
      RunKeepsInv(s, acts[..|acts| - 1]);
      DoKeepsInv(Run(s, acts[..|acts| - 1]), acts[|acts| - 1]);
    }
  }

  lemma {:induction false} RunConcat(s: State, a: seq<Action>, b: seq<Action>)
    ensures Run(s, a + b) == Run(Run(s, a), b)
  {
    if b == [] {
      assert a + b == a;
    } else {
      RunConcat(s, a, b[..|b| - 1]);
      assert (a + b)[..|a + b| - 1] == a + b[..|b| - 1];
    }
  }

  // ---------------------------------------------------------------------
  // Main results, for every interleaving
  // ---------------------------------------------------------------------

  /** The loop thread called queueInLoop while not inside loop(), and no pass has swapped since. */
  ghost predicate PushIsUnswapped(acts: seq<Action>) {
    exists i :: PushedOutsideAt(acts, i) && NoneAfter(acts, i, Swap)
  }

  ghost predicate PushedOutsideAt(acts: seq<Action>, i: nat) {
    i < |acts| && acts[i].LoopPush? && Run(INIT, acts[..i]).pc.Outside?
  }

  /** The action does not take place after position i. */
  ghost predicate NoneAfter(acts: seq<Action>, i: nat, a: Action) {
    forall j :: i < j < |acts| && acts[j] == a ==> !Enabled(Run(INIT, acts[..j]), a)
  }

  lemma NoneAfterLast(acts: seq<Action>, i: nat, a: Action)
    requires acts != [] && i < |acts|
    ensures var n := |acts| - 1;
            NoneAfter(acts, i, a) <==>
              i == n || (NoneAfter(acts[..n], i, a) && !(acts[n] == a && Enabled(Run(INIT, acts[..n]), a)))
  {
    var n := |acts| - 1;
    forall j | 0 <= j < n
      ensures acts[..n][..j] == acts[..j] && acts[..n][j] == acts[j]
    {}
  }

  /** The mark records exactly that. */
  lemma {:induction false} UnwokenMeansUnswapped(acts: seq<Action>)
    ensures Run(INIT, acts).unwoken <==> PushIsUnswapped(acts)
  {
    if acts != [] {
      var n := |acts| - 1;
      var before := acts[..n];
      UnwokenMeansUnswapped(before);
      RunKeepsInv(INIT, before);
      UnwokenStep(Run(INIT, before), acts[n]);
      UnswappedStep(acts);
      hide Inv, Do, Enabled, PushIsUnswapped;
    }
  }

  lemma UnwokenStep(s: State, a: Action)
    requires Inv(s)
    ensures Do(s, a).unwoken <==> (a.LoopPush? && s.pc.Outside?) || (s.unwoken && !(a == Swap && Enabled(s, Swap)))
  {}

  lemma UnswappedStep(acts: seq<Action>)
    requires acts != []
    ensures var n := |acts| - 1;
            PushIsUnswapped(acts) <==>
              PushedOutsideAt(acts, n) ||
              (PushIsUnswapped(acts[..n]) && !(acts[n] == Swap && Enabled(Run(INIT, acts[..n]), Swap)))
  {
    hide Run, Enabled;
    var n := |acts| - 1;
    forall i | 0 <= i < n
      ensures PushedOutsideAt(acts, i) <==> PushedOutsideAt(acts[..n], i)
    {
      assert acts[..n][..i] == acts[..i];
    }
    if PushIsUnswapped(acts) {
      var i :| PushedOutsideAt(acts, i) && NoneAfter(acts, i, Swap);
      NoneAfterLast(acts, i, Swap);
    }
    if PushedOutsideAt(acts, n) {
      NoneAfterLast(acts, n, Swap);
    }
    if PushIsUnswapped(acts[..n]) {
      var i :| PushedOutsideAt(acts[..n], i) && NoneAfter(acts[..n], i, Swap);
      NoneAfterLast(acts, i, Swap);
    }
  }

  /**
   * No lost wakeup. Whenever the loop is at poll, or past a swap and heading back to it, with
   * functors pending, the eventfd is readable or a thread is between its push and its write.
   */
  lemma NoLostWakeup(acts: seq<Action>)
    requires !PushIsUnswapped(acts)
    ensures var s := Run(INIT, acts);
            MustBeWoken(s.pc) && s.pending != [] ==> WakeupOnItsWay(s)
  {
    RunKeepsInv(INIT, acts);
    UnwokenMeansUnswapped(acts);
  }

  /** Blocked in poll with an unreadable eventfd, and nobody about to write it. */
  predicate Asleep(s: State) {
    s.pc.Polling? && s.counter == 0 && s.pushed == {} && s.quitting == {}
  }

  /**
   * A sleeping loop has nothing to quit for, and it has done all work ever pushed exactly when no
   * push made outside loop() is still unswapped.
   */
  lemma SleepsOnlyWhenDone(acts: seq<Action>)
    ensures var s := Run(INIT, acts);
            Asleep(s) ==> !s.quit && (s.executed == s.history <==> !PushIsUnswapped(acts))
  {
    RunKeepsInv(INIT, acts);
    UnwokenMeansUnswapped(acts);
    var s := Run(INIT, acts);
    assert s.executed + [] == s.executed;
    assert |s.executed + s.batch + s.pending| == |s.executed| + |s.batch| + |s.pending|;
  }

  /** The exception is real: from any quiet state outside loop(), such a push is slept on. */
  lemma PushOutsideLoopIsSleptOn(s: State, f: Functor)
    requires Inv(s) && s.pc.Outside? && s.counter == 0 && s.pushed == {} && s.quitting == {}
    ensures var t := Run(s, [LoopPush(f), EnterLoop, TestQuit]);
            Asleep(t) && t.pending == s.pending + [f] && t.executed == s.executed
  {
    var acts := [LoopPush(f), EnterLoop, TestQuit];
    assert acts[..2] == [LoopPush(f), EnterLoop] && acts[..2][..1] == [LoopPush(f)];
    assert [LoopPush(f)][..0] == [];
    assert Run(s, [LoopPush(f)]) == Do(Run(s, []), LoopPush(f));
    assert Run(s, acts[..2]) == Do(Run(s, [LoopPush(f)]), EnterLoop);
  }

  /** quit() was called, in whatever thread, and loop() has not been entered since. */
  ghost predicate QuitIsStanding(acts: seq<Action>) {
    exists i :: QuitAt(acts, i) && NoneAfter(acts, i, EnterLoop)
  }

  ghost predicate QuitAt(acts: seq<Action>, i: nat) {
    i < |acts| && (acts[i].SetQuit? || acts[i].LoopQuit?) && Enabled(Run(INIT, acts[..i]), acts[i])
  }

  /** A quit() stands exactly until loop() is next entered, which forgets it. */
  lemma {:induction false} QuitLastsUntilEntry(acts: seq<Action>)
    ensures Run(INIT, acts).quit <==> QuitIsStanding(acts)
  {
    if acts != [] {
      QuitLastsUntilEntry(acts[..|acts| - 1]);
      StandingStep(acts);
    }
  }

  lemma StandingStep(acts: seq<Action>)
    requires acts != []
    ensures var n := |acts| - 1;
            QuitIsStanding(acts) <==>
              QuitAt(acts, n) ||
              (QuitIsStanding(acts[..n]) && !(acts[n] == EnterLoop && Enabled(Run(INIT, acts[..n]), EnterLoop)))
  {
    hide Run, Enabled;
    var n := |acts| - 1;
    forall i | 0 <= i < n
      ensures QuitAt(acts, i) <==> QuitAt(acts[..n], i)
    {
      assert acts[..n][..i] == acts[..i];
    }
    if QuitIsStanding(acts) {
      var i :| QuitAt(acts, i) && NoneAfter(acts, i, EnterLoop);
      NoneAfterLast(acts, i, EnterLoop);
    }
    if QuitAt(acts, n) {
      NoneAfterLast(acts, n, EnterLoop);
    }
    if QuitIsStanding(acts[..n]) {
      var i :| QuitAt(acts[..n], i) && NoneAfter(acts[..n], i, EnterLoop);
      NoneAfterLast(acts, i, EnterLoop);
    }
  }

  /** So a quit() that comes before loop() is forgotten, and the loop goes to poll. */
  lemma QuitBeforeLoopIsLost(s: State, t: ThreadId)
    requires Inv(s) && s.pc.Outside? && t !in s.pushed && t !in s.quitting
    ensures Run(s, [SetQuit(t), WakeQuit(t), EnterLoop, TestQuit]).pc.Polling?
  {
    var acts := [SetQuit(t), WakeQuit(t), EnterLoop, TestQuit];
    assert acts[..3] == [SetQuit(t), WakeQuit(t), EnterLoop];
    assert acts[..3][..2] == [SetQuit(t), WakeQuit(t)];
    assert acts[..3][..2][..1] == [SetQuit(t)];
    assert Run(s, [SetQuit(t)]) == Do(Run(s, []), SetQuit(t));
    assert Run(s, acts[..3][..2]) == Do(Run(s, [SetQuit(t)]), WakeQuit(t));
    assert Run(s, acts[..3]) == Do(Run(s, acts[..3][..2]), EnterLoop);
  }

  /** Where another thread stands after its own actions, by the order in which its code makes them. */
  datatype Stage = Outward | BeforeWakeup(quitting: bool)

  function StageAfter(stage: Stage, a: Action, t: ThreadId): Stage {
    match a
    case Push(u, _) => if u == t && stage.Outward? then BeforeWakeup(false) else stage
    case SetQuit(u) => if u == t && stage.Outward? then BeforeWakeup(true) else stage
    case Wake(u) => if u == t && stage == BeforeWakeup(false) then Outward else stage
    case WakeQuit(u) => if u == t && stage == BeforeWakeup(true) then Outward else stage
    case _ => stage
  }

  function StageOf(acts: seq<Action>, t: ThreadId): Stage {
    if acts == [] then Outward else StageAfter(StageOf(acts[..|acts| - 1], t), acts[|acts| - 1], t)
  }

  /** The sets of threads that owe a wakeup are those that stand before one, and all others may call. */
  lemma {:induction false} OwersStandBeforeWakeup(acts: seq<Action>, t: ThreadId)
    ensures var s, stage := Run(INIT, acts), StageOf(acts, t);
            && (t in s.pushed <==> stage == BeforeWakeup(false))
            && (t in s.quitting <==> stage == BeforeWakeup(true))
            && (stage.Outward? <==> Enabled(s, SetQuit(t)))
            && (forall f :: stage.Outward? <==> Enabled(s, Push(t, f)))
  {
    if acts != [] {
      var before, a := acts[..|acts| - 1], acts[|acts| - 1];
      OwersStandBeforeWakeup(before, t);
      if a.Push? || a.SetQuit? || a.Wake? || a.WakeQuit? { OwersStandBeforeWakeup(before, a.t); }
    }
  }

  /** The functors that calls of queueInLoop handed over, in the order of their turns at the lock. */
  function PushedBy(acts: seq<Action>): seq<Functor> {
    if acts == [] then []
    else
      var before := acts[..|acts| - 1];
      match acts[|acts| - 1]
      case Push(t, f) => if StageOf(before, t).Outward? then PushedBy(before) + [f] else PushedBy(before)
      case LoopPush(f) => if InUserCode(Run(INIT, before).pc) then PushedBy(before) + [f] else PushedBy(before)
      case _ => PushedBy(before)
  }

  lemma {:induction false} HistoryIsPushes(acts: seq<Action>)
    ensures Run(INIT, acts).history == PushedBy(acts)
  {
    if acts != [] {
      var before, a := acts[..|acts| - 1], acts[|acts| - 1];
      HistoryIsPushes(before);
      if a.Push? { OwersStandBeforeWakeup(before, a.t); }
    }
  }

  /** How often the eventfd has been written since it was last read. */
  function Signals(acts: seq<Action>): nat {
    if acts == [] then 0
    else
      var before := acts[..|acts| - 1];
      match acts[|acts| - 1]
      case Wake(t) => if StageOf(before, t) == BeforeWakeup(false) then Signals(before) + 1 else Signals(before)
      case WakeQuit(t) => if StageOf(before, t) == BeforeWakeup(true) then Signals(before) + 1 else Signals(before)
      case LoopWake => if Run(INIT, before).pc.Waking? then Signals(before) + 1 else Signals(before)
      case HandleRead => if Run(INIT, before).pc == Handling(true) then 0 else Signals(before)
      case _ => Signals(before)
  }

  /** The eventfd counts exactly these writes, up to its maximum. */
  lemma {:induction false} CounterIsSignals(acts: seq<Action>)
    ensures Run(INIT, acts).counter == if Signals(acts) < EVENTFD_MAX then Signals(acts) else EVENTFD_MAX
  {
    if acts != [] {
      var before, a := acts[..|acts| - 1], acts[|acts| - 1];
      CounterIsSignals(before);
      if a.Wake? || a.WakeQuit? { OwersStandBeforeWakeup(before, a.t); }
    }
  }

  /**
   * Exactly once and in lock order: what ran, what the batch still holds and what waits is what the
   * calls of queueInLoop handed over.
   */
  lemma ExactlyOnceInOrder(acts: seq<Action>)
    ensures var s := Run(INIT, acts);
            s.executed + s.batch + s.pending == s.history == PushedBy(acts) && s.executed <= s.history
  {
    RunKeepsInv(INIT, acts);
    HistoryIsPushes(acts);
  }

  /** Every state from the swap on belongs to the same pass. */
  ghost predicate StaysInPass(s: State, acts: seq<Action>) {
    forall k :: 0 <= k <= |acts| ==> InPass(Run(s, acts[..k]).pc)
  }

  /**
   * A pass runs a fixed finite list: whatever functors and other threads push meanwhile, it executes
   * what had been pushed by its swap, and a pass that ends has executed exactly that.
   */
  lemma {:induction false} PassRunsSnapshot(s: State, acts: seq<Action>)
    requires Inv(s) && s.pc.Claiming? && StaysInPass(Do(s, Swap), acts)
    ensures var t := Run(Do(s, Swap), acts);
            && t.executed + t.batch == s.history
            && (Enabled(t, EndPass) ==> t.executed == s.history)
  {
    var s1 := Do(s, Swap);
    DoKeepsInv(s, Swap);
    PassEndFixed(s1, acts);
    RunKeepsInv(s1, acts);
    HistoryGrows(s1, acts);
    var t := Run(s1, acts);
    assert acts[..|acts|] == acts;
    assert (t.executed + t.batch) == t.history[..t.passEnd];
  }

  lemma {:induction false} HistoryGrows(s: State, acts: seq<Action>)
    ensures s.history <= Run(s, acts).history && s.executed <= Run(s, acts).executed
  {
    hide Do;
    if acts != [] {
      HistoryGrows(s, acts[..|acts| - 1]);
      StepGrows(Run(s, acts[..|acts| - 1]), acts[|acts| - 1]);
    }
  }

  lemma StepGrows(s: State, a: Action)
    ensures s.history <= Do(s, a).history && s.executed <= Do(s, a).executed
  {}

  lemma {:induction false} PassEndFixed(s: State, acts: seq<Action>)
    requires StaysInPass(s, acts)
    ensures Run(s, acts).passEnd == s.passEnd
  {
    if acts != [] {
      var before := acts[..|acts| - 1];
      forall k | 0 <= k <= |before|
        ensures InPass(Run(s, before[..k]).pc)
      {
        assert before[..k] == acts[..k];
      }
      PassEndFixed(s, before);
      assert InPass(Run(s, before[..|before|]).pc) && before[..|before|] == before;
    }
  }

  /**
   * Every pass is complete: once it has ended, what had been pushed when it began is executed, in
   * this and in every later state.
   */
  lemma {:induction false} PassesComplete(acts: seq<Action>, i: nat)
    requires i < |acts| && acts[i] == BeginPass && Enabled(Run(INIT, acts[..i]), BeginPass)
    ensures var seen, s := Run(INIT, acts[..i]).history, Run(INIT, acts);
            && seen <= s.history
            && (s.pc.Claiming? || seen <= s.executed + s.batch)
            && (!s.calling ==> seen <= s.executed)
    decreases |acts|
  {
    var before := acts[..|acts| - 1];
    RunKeepsInv(INIT, before);
    RunKeepsInv(INIT, acts);
    var s, t := Run(INIT, before), Run(INIT, acts);
    if i == |acts| - 1 {
      assert acts[..i] == before;
    } else {
      assert before[..i] == acts[..i];
      PassesComplete(before, i);
      StepGrows(s, acts[|acts| - 1]);
      ExecutedGrows(s, acts[|acts| - 1]);
    }
    assert t.batch == [] ==> t.executed + t.batch == t.executed;
  }

  /** What a batch was to execute it goes on to execute. */
  lemma ExecutedGrows(s: State, a: Action)
    requires Inv(s)
    ensures var t := Do(s, a);
            && s.executed + s.batch <= t.executed + t.batch
            && (s.pc.Claiming? && !t.pc.Claiming? ==> t.executed + t.batch == s.history)
  {
    if a.RunNext? && Enabled(s, a) {
      assert (s.executed + [s.batch[0]]) + s.batch[1..] == s.executed + s.batch;
    }
    if a.Swap? && Enabled(s, a) {
      assert s.executed + s.batch == s.executed;
    }
  }

  // ---------------------------------------------------------------------
  // Progress
  // ---------------------------------------------------------------------

  /** Steps of the loop thread itself, none of which pushes or quits. */
  predicate LoopAlone(acts: seq<Action>) {
    forall a <- acts :: a in {TestQuit, PollReturn(true), PollReturn(false), HandleRead, BeginPass,
                              Swap, RunNext, EndPass, LoopWake}
  }

  /** Every return from poll in the run is owed to the eventfd, not to a timeout or other traffic. */
  ghost predicate PollsOnlyWhenReadable(s: State, acts: seq<Action>) {
    forall i :: 0 <= i < |acts| && acts[i].PollReturn? ==> Run(s, acts[..i]).counter > 0
  }

  lemma Extend(s: State, acts: seq<Action>, a: Action)
    requires LoopAlone(acts) && PollsOnlyWhenReadable(s, acts) && LoopAlone([a])
    requires a.PollReturn? ==> Run(s, acts).counter > 0
    ensures LoopAlone(acts + [a]) && PollsOnlyWhenReadable(s, acts + [a])
    ensures Run(s, acts + [a]) == Do(Run(s, acts), a)
  {
    var more := acts + [a];
    assert a in [a];
    assert more[..|acts|] == acts;
    forall i | 0 <= i < |more| && more[i].PollReturn?
      ensures Run(s, more[..i]).counter > 0
    {
      assert more[..i] == acts[..i];
    }
  }

  /** The step the loop thread takes next when the code it runs does not push or quit. */
  function LoopStep(s: State): Action {
    match s.pc
    case Outside => TestQuit
    case Testing => TestQuit
    case Polling => PollReturn(true)
    case Handling(wakeup) => if wakeup then HandleRead else BeginPass
    case Claiming => Swap
    case Running => if s.batch != [] then RunNext else EndPass
    case Waking => LoopWake
  }

  /** How many such steps are left until everything pushed so far has been executed. */
  function Distance(s: State): nat {
    if s.pending == [] then |s.batch| + (if s.batch != [] && s.pc.Waking? then 1 else 0)
    else
      |s.batch| + |s.pending| +
      match s.pc
      case Outside => 0
      case Waking => 8
      case Running => 7
      case Testing => 6
      case Polling => 5
      case Handling(wakeup) => if wakeup then 4 else 3
      case Claiming => 1
  }

  lemma LoopStepGetsCloser(s: State)
    requires Inv(s) && !s.pc.Outside? && s.pushed == {} && !s.quit && !s.unwoken
    requires s.batch != [] || s.pending != []
    ensures Enabled(s, LoopStep(s)) && (LoopStep(s).PollReturn? ==> s.counter > 0)
    ensures var t := Do(s, LoopStep(s));
            && Inv(t) && !t.pc.Outside? && t.pushed == {} && !t.quit && !t.unwoken
            && t.history == s.history && Distance(t) < Distance(s)
  {
    DoKeepsInv(s, LoopStep(s));
  }

  /**
   * Progress. From every reachable state inside loop() that nobody is about to disturb, the loop
   * thread alone executes everything pushed so far, in a bounded number of steps, and needs no
   * timeout to get out of poll.
   */
  lemma Drains(s: State) returns (acts: seq<Action>)
    requires Inv(s) && !s.pc.Outside? && s.pushed == {} && !s.quit && !s.unwoken
    ensures LoopAlone(acts) && PollsOnlyWhenReadable(s, acts)
    ensures Run(s, acts).executed == s.history
    ensures |acts| <= Distance(s)
  {
    acts := [];
    while Distance(Run(s, acts)) > 0
      invariant LoopAlone(acts) && PollsOnlyWhenReadable(s, acts)
      invariant var t := Run(s, acts);
                && Inv(t) && !t.pc.Outside? && t.pushed == {} && !t.quit && !t.unwoken
                && t.history == s.history && |acts| + Distance(t) <= Distance(s)
      decreases Distance(Run(s, acts))
    {
      var t := Run(s, acts);
      LoopStepGetsCloser(t);
      Extend(s, acts, LoopStep(t));
      acts := acts + [LoopStep(t)];
    }
    var t := Run(s, acts);
    assert t.executed + [] + [] == t.executed;
  }

  /** How many steps of the loop thread are left until it is out of loop(), once it is to quit. */
  function DistanceOut(s: State): nat {
    match s.pc
    case Outside => 0
    case Testing => 1
    case Running => |s.batch| + 2
    case Waking => |s.batch| + 3
    case Claiming => |s.pending| + 3
    case Handling(wakeup) => |s.pending| + (if wakeup then 5 else 4)
    case Polling => |s.pending| + 6
  }

  lemma LoopStepGetsOut(s: State)
    requires Inv(s) && !s.pc.Outside? && s.quit && s.quitting == {}
    ensures Enabled(s, LoopStep(s)) && (LoopStep(s).PollReturn? ==> s.counter > 0)
    ensures var t := Do(s, LoopStep(s));
            Inv(t) && t.quit && t.quitting == {} && DistanceOut(t) < DistanceOut(s)
  {
    DoKeepsInv(s, LoopStep(s));
  }

  /**
   * A quit is honoured. Once it is set inside loop() and its wakeup is written, the loop thread alone
   * leaves loop(), in a bounded number of steps, and needs no timeout to get out of poll.
   */
  lemma QuitIsHonoured(s: State) returns (acts: seq<Action>)
    requires Inv(s) && !s.pc.Outside? && s.quit && s.quitting == {}
    ensures LoopAlone(acts) && PollsOnlyWhenReadable(s, acts)
    ensures Run(s, acts).pc.Outside?
    ensures |acts| <= DistanceOut(s)
  {
    acts := [];
    while !Run(s, acts).pc.Outside?
      invariant LoopAlone(acts) && PollsOnlyWhenReadable(s, acts)
      invariant var t := Run(s, acts);
                Inv(t) && t.quit && t.quitting == {} && |acts| + DistanceOut(t) <= DistanceOut(s)
      decreases DistanceOut(Run(s, acts))
    {
      var t := Run(s, acts);
      LoopStepGetsOut(t);
      Extend(s, acts, LoopStep(t));
      acts := acts + [LoopStep(t)];
    }
  }

  // ---------------------------------------------------------------------
  // Progress amid others
  // ---------------------------------------------------------------------

  /** A step the loop thread takes on its way round the loop. */
  predicate IsLoopStep(s: State, a: Action) {
    Enabled(s, a) && (a.TestQuit? || a.PollReturn? || a.HandleRead? || a.BeginPass? || a.Swap? || a.RunNext?
                      || a.EndPass? || a.LoopWake?)
  }

  predicate IsPush(s: State, a: Action) { Enabled(s, a) && (a.Push? || a.LoopPush?) }

  predicate IsOwnPush(s: State, a: Action) { Enabled(s, a) && a.LoopPush? }

  /** How many steps of a run are of a kind. */
  ghost function Count(kind: (State, Action) -> bool, s: State, acts: seq<Action>): nat {
    if acts == [] then 0
    else
      var n := |acts| - 1;
      Count(kind, s, acts[..n]) + if kind(Run(s, acts[..n]), acts[n]) then 1 else 0
  }

  ghost predicate StaysInLoop(s: State, acts: seq<Action>) {
    forall k :: 0 <= k <= |acts| ==> !Run(s, acts[..k]).pc.Outside?
  }

  lemma StaysInLoopBefore(s: State, acts: seq<Action>)
    requires acts != [] && StaysInLoop(s, acts)
    ensures StaysInLoop(s, acts[..|acts| - 1]) && !Run(s, acts).pc.Outside?
  {
    var before := acts[..|acts| - 1];
    assert acts[..|acts|] == acts;
    forall k | 0 <= k <= |before|
      ensures !Run(s, before[..k]).pc.Outside?
    {
      assert before[..k] == acts[..k];
    }
  }

  lemma StepTowardsOut(s: State, a: Action)
    requires Inv(s) && s.quit && !s.pc.Outside? && !Do(s, a).pc.Outside?
    ensures Do(s, a).quit
    ensures DistanceOut(Do(s, a)) + (if IsLoopStep(s, a) then 1 else 0)
            <= DistanceOut(s) + (if IsPush(s, a) then 1 else 0)
  {}

  /**
   * A quit is honoured soon, whatever goes on: once it is set, in any interleaving that has not left
   * loop() yet, the loop thread has taken no more steps than it had ahead of it, and one for each
   * push made meanwhile.
   */
  lemma {:induction false} QuitIsHonouredSoon(s: State, acts: seq<Action>)
    requires Inv(s) && s.quit && StaysInLoop(s, acts)
    ensures Inv(Run(s, acts)) && Run(s, acts).quit
    ensures Count(IsLoopStep, s, acts) + DistanceOut(Run(s, acts)) <= DistanceOut(s) + Count(IsPush, s, acts)
  {
    hide Inv, Do, DistanceOut, StaysInLoop, IsLoopStep, IsPush;
    if acts != [] {
      var before := acts[..|acts| - 1];
      StaysInLoopBefore(s, acts);
      QuitIsHonouredSoon(s, before);
      DoKeepsInv(Run(s, before), acts[|acts| - 1]);
      LastIsInLoop(s, before);
      StepTowardsOut(Run(s, before), acts[|acts| - 1]);
    }
  }

  lemma LastIsInLoop(s: State, acts: seq<Action>)
    requires StaysInLoop(s, acts)
    ensures !Run(s, acts).pc.Outside?
  {
    assert acts[..|acts|] == acts;
  }

  /** And it is never stuck meanwhile but on a thread that has yet to write its wakeup. */
  lemma QuitIsNotStuck(s: State)
    requires Inv(s) && s.quit && !s.pc.Outside?
    ensures IsLoopStep(s, LoopStep(s)) || s.quitting != {}
  {}

  /** How many steps of the loop thread are left until the first n functors pushed are executed. */
  function DistanceTo(s: State, n: nat): nat {
    var own := if s.pc.Waking? then 1 else 0;
    if n <= |s.executed| then 0
    else if InPass(s.pc) && n <= s.passEnd then n - |s.executed| + own
    else
      n - |s.executed| +
      match s.pc
      case Outside => 0
      case Waking => 8
      case Running => 7
      case Testing => 6
      case Polling => 5
      case Handling(wakeup) => if wakeup then 4 else 3
      case Claiming => 1
  }

  lemma StepTowards(s: State, a: Action, n: nat)
    requires Inv(s) && n <= |s.history| && !s.pc.Outside? && !Do(s, a).pc.Outside?
    ensures n <= |s.executed| ==> n <= |Do(s, a).executed|
    ensures |s.executed| < n ==>
              DistanceTo(Do(s, a), n) + (if IsLoopStep(s, a) then 1 else 0)
              <= DistanceTo(s, n) + (if IsOwnPush(s, a) then 1 else 0)
  {
    PlacesCount(s);
  }

  lemma PlacesCount(s: State)
    requires InPlace(s)
    ensures |s.executed| + |s.batch| + |s.pending| == |s.history|
  {}

  /**
   * Work is done soon, whatever goes on: in any interleaving that stays in loop(), until all that had
   * been pushed at its start is executed the loop thread takes no more steps than a bound set by that
   * start, and one for each push of its own; what others push does not delay it.
   */
  lemma {:induction false} DrainsSoon(s: State, acts: seq<Action>)
    requires Inv(s) && StaysInLoop(s, acts)
    ensures Inv(Run(s, acts)) && |s.history| <= |Run(s, acts).history|
    ensures |Run(s, acts).executed| < |s.history| ==>
              Count(IsLoopStep, s, acts) + DistanceTo(Run(s, acts), |s.history|)
              <= DistanceTo(s, |s.history|) + Count(IsOwnPush, s, acts)
  {
    hide Inv, Do, DistanceTo, StaysInLoop, IsLoopStep, IsOwnPush;
    if acts != [] {
      var before := acts[..|acts| - 1];
      StaysInLoopBefore(s, acts);
      DrainsSoon(s, before);
      DoKeepsInv(Run(s, before), acts[|acts| - 1]);
      LastIsInLoop(s, before);
      StepTowards(Run(s, before), acts[|acts| - 1], |s.history|);
      StepGrows(Run(s, before), acts[|acts| - 1]);
    }
  }

  /** And it is never stuck meanwhile but on a thread that has yet to write its wakeup. */
  lemma WorkIsNotStuck(s: State)
    requires Inv(s) && !s.pc.Outside? && !s.unwoken && s.executed != s.history
    ensures IsLoopStep(s, LoopStep(s)) || s.pushed != {}
  {
    assert s.executed + [] + [] == s.executed;
  }
}
