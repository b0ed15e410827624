/**
 * The bounded queue between run() and the workers: src/ThreadPool.cpp.
 *
 * A thread's step is one critical section, up to its unlock or its wait on a condition variable.
 * A wait may end without a notify, and a woken thread competes with all others for the mutex.
 */
module PoolMonitor {

  type ThreadId = nat
  type Task = nat

  datatype Pc =
    | Idle                                       // a client outside run()
    | AsleepFull(task: Task, worker: bool)       // in M_notFull.wait(); worker: called from a running task
    | WokenFull(task: Task, worker: bool)        // out of the wait, not yet holding the mutex
    | Top                                        // a worker at while(M_running)
    | Entering                                   // it saw M_running and is about to call take()
    | AsleepEmpty                                // in M_notEmpty.wait()
    | WokenEmpty
    | Working                                    // running what take() returned
    | Exited

  datatype State = State(
    queue: seq<Task>,             // M_queue
    maxSize: nat,                 // M_maxQueueSize
    running: bool,                // M_running
    threads: map<ThreadId, Pc>,   // a thread not listed is an idle client
    workers: set<ThreadId>,       // M_threads
    taken: seq<Task>,             // what take() has returned, in order
    history: seq<Task>,           // what run() has queued, in order
    inlined: seq<Task>            // what run() has executed itself, for want of workers
  )

  function Started(maxSize: nat, workers: set<ThreadId>): State {
    State([], maxSize, true, map t | t in workers :: Top, workers, [], [], [])
  }

  datatype Action =
    | Produce(t: ThreadId, task: Task, wake: set<ThreadId>)   // run(), or its wait loop resumed
    | Check(t: ThreadId)                                      // while(M_running)
    | Consume(t: ThreadId, wake: set<ThreadId>)               // take(), or its wait loop resumed
    | Finish(t: ThreadId)                                     // the task returns
    | Spurious(t: ThreadId)                                   // a wait ends by itself
    | Stop

  function PcOf(s: State, t: ThreadId): Pc {
    if t in s.threads then s.threads[t] else Idle
  }

  predicate IsFull(s: State) { s.maxSize > 0 && |s.queue| >= s.maxSize }

  // Threads by where they are; the two numbers of each pair decide whether the pool can stall.
  function AsleepWorkers(ts: map<ThreadId, Pc>): set<ThreadId> { set t | t in ts && ts[t].AsleepEmpty? }
  function WokenWorkers(ts: map<ThreadId, Pc>): set<ThreadId> { set t | t in ts && ts[t].WokenEmpty? }
  function AsleepProducers(ts: map<ThreadId, Pc>): set<ThreadId> { set t | t in ts && ts[t].AsleepFull? }
  function WokenProducers(ts: map<ThreadId, Pc>): set<ThreadId> { set t | t in ts && ts[t].WokenFull? }

  /** pthread_cond_signal wakes at least one of the waiters, if there are any. */
  predicate Notifies(wake: set<ThreadId>, asleep: set<ThreadId>) {
    wake <= asleep && (asleep != {} ==> wake != {})
  }

  function Woken(pc: Pc): Pc {
    match pc
    case AsleepFull(task, worker) => WokenFull(task, worker)
    case AsleepEmpty => WokenEmpty
    case _ => pc
  }

  function WakeUp(ts: map<ThreadId, Pc>, wake: set<ThreadId>): map<ThreadId, Pc> {
    map t | t in ts :: if t in wake then Woken(ts[t]) else ts[t]
  }

  predicate MayProduce(pc: Pc, task: Task) {
    pc.Idle? || pc.Working? || (pc.WokenFull? && pc.task == task)
  }

  predicate Enabled(s: State, a: Action) {
    match a
    case Produce(t, task, wake) =>
      && MayProduce(PcOf(s, t), task)
      && (s.workers != {} && !IsFull(s) ==> Notifies(wake, AsleepWorkers(s.threads)))
    case Check(t) => PcOf(s, t).Top?
    case Consume(t, wake) =>
      && (PcOf(s, t).Entering? || PcOf(s, t).WokenEmpty?)
      && (s.queue != [] && s.maxSize > 0 ==> Notifies(wake, AsleepProducers(s.threads)))
    case Finish(t) => PcOf(s, t).Working?
    case Spurious(t) => PcOf(s, t).AsleepFull? || PcOf(s, t).AsleepEmpty?
    case Stop => true
  }

  /** Whether the caller of run() is itself a worker, running a task. */
  predicate FromWorker(pc: Pc) { pc.Working? || (pc.WokenFull? && pc.worker) }

  function Effect(s: State, a: Action): State
    requires Enabled(s, a)
  {
    match a
    case Produce(t, task, wake) =>
      var worker := FromWorker(PcOf(s, t));
      if s.workers == {} then s.(inlined := s.inlined + [task])
      else if IsFull(s) then s.(threads := s.threads[t := AsleepFull(task, worker)])
      else s.(queue := s.queue + [task], history := s.history + [task],
              threads := WakeUp(s.threads, wake)[t := if worker then Working else Idle])
    case Check(t) => s.(threads := s.threads[t := if s.running then Entering else Exited])
    case Consume(t, wake) =>
      if s.queue == [] then s.(threads := s.threads[t := if s.running then AsleepEmpty else Top])
      else s.(queue := s.queue[1..], taken := s.taken + [s.queue[0]],
              threads := (if s.maxSize > 0 then WakeUp(s.threads, wake) else s.threads)[t := Working])
    case Finish(t) => s.(threads := s.threads[t := Top])
    case Spurious(t) => s.(threads := WakeUp(s.threads, {t}))
    case Stop => s.(running := false, threads := WakeUp(s.threads, AsleepWorkers(s.threads)))
  }

  function Do(s: State, a: Action): State {
    if Enabled(s, a) then Effect(s, a) else s
  }

  function Run(s: State, acts: seq<Action>): State {
    if acts == [] then s else Do(Run(s, acts[..|acts| - 1]), acts[|acts| - 1])
  }

  // ---------------------------------------------------------------------
  // What every step keeps
  // ---------------------------------------------------------------------

  predicate WorkerPc(pc: Pc) {
    match pc
    case Idle => false
    case AsleepFull(_, worker) => worker
    case WokenFull(_, worker) => worker
    case _ => true
  }

  predicate RolesFit(s: State) {
    && s.workers <= s.threads.Keys
    && (forall t <- s.threads.Keys :: WorkerPc(s.threads[t]) <==> t in s.workers)
    && (s.running ==> forall t <- s.threads.Keys :: !s.threads[t].Exited?)
  }

  /** Unsignalled sleepers are outnumbered: each task has a woken worker, each free slot a woken producer. */
  predicate NoLostNotify(s: State) {
    && (AsleepWorkers(s.threads) != {} ==> s.running && |s.queue| <= |WokenWorkers(s.threads)|)
    && (AsleepProducers(s.threads) != {} ==>
          s.maxSize > 0 && s.maxSize <= |s.queue| + |WokenProducers(s.threads)|)
  }

  predicate Inv(s: State) {
    && RolesFit(s)
    && NoLostNotify(s)
    && (s.maxSize > 0 ==> |s.queue| <= s.maxSize)
    && s.taken + s.queue == s.history
  }

  lemma Moved(ts: map<ThreadId, Pc>, t: ThreadId, pc: Pc)
    ensures var us := ts[t := pc];
            && AsleepWorkers(us) == (if pc.AsleepEmpty? then AsleepWorkers(ts) + {t} else AsleepWorkers(ts) - {t})
            && WokenWorkers(us) == (if pc.WokenEmpty? then WokenWorkers(ts) + {t} else WokenWorkers(ts) - {t})
            && AsleepProducers(us) == (if pc.AsleepFull? then AsleepProducers(ts) + {t} else AsleepProducers(ts) - {t})
            && WokenProducers(us) == (if pc.WokenFull? then WokenProducers(ts) + {t} else WokenProducers(ts) - {t})
  {}

  lemma WokenUpWorkers(ts: map<ThreadId, Pc>, wake: set<ThreadId>)
    ensures AsleepWorkers(WakeUp(ts, wake)) == AsleepWorkers(ts) - wake
    ensures WokenWorkers(WakeUp(ts, wake)) == WokenWorkers(ts) + AsleepWorkers(ts) * wake
  {}

  lemma WokenUpProducers(ts: map<ThreadId, Pc>, wake: set<ThreadId>)
    ensures AsleepProducers(WakeUp(ts, wake)) == AsleepProducers(ts) - wake
    ensures WokenProducers(WakeUp(ts, wake)) == WokenProducers(ts) + AsleepProducers(ts) * wake
  {}

  lemma AllDistinct(ts: map<ThreadId, Pc>)
    ensures AsleepWorkers(ts) * AsleepProducers(ts) == {}
    ensures AsleepWorkers(ts) !! WokenWorkers(ts) && AsleepProducers(ts) !! WokenProducers(ts)
  {}

  lemma SizeMinus(a: set<ThreadId>, t: ThreadId)
    ensures |a - {t}| == |a| - (if t in a then 1 else 0)
  {
    if t in a { assert a == (a - {t}) + {t}; } else { assert a - {t} == a; }
  }

  lemma Grows(a: set<ThreadId>, b: set<ThreadId>)
    ensures |a| <= |a + b|
  {
    assert a + b == a + (b - a);
    assert |a + (b - a)| == |a| + |b - a|;
  }

  lemma WakingAdds(woken: set<ThreadId>, asleep: set<ThreadId>, wake: set<ThreadId>)
    requires Notifies(wake, asleep) && woken !! asleep && asleep != {}
    ensures |woken + asleep * wake| > |woken|
  {
    var t :| t in wake;
    assert t !in woken;
    assert woken + asleep * wake == woken + {t} + (wake - {t});
    Grows(woken + {t}, wake - {t});
  }

  /** The four sets after some of the first are woken and t leaves them. */
  lemma SetsAfterNotify(asleep: set<ThreadId>, woken: set<ThreadId>, other: set<ThreadId>,
                        otherWoken: set<ThreadId>, wake: set<ThreadId>, t: ThreadId)
    requires wake <= asleep && asleep * other == {}
    requires t !in asleep && t !in other && t !in woken
    ensures asleep - wake - {t} <= asleep
    ensures woken + asleep * wake - {t} == woken + asleep * wake
    ensures other - wake - {t} == other
    ensures otherWoken + other * wake - {t} == otherWoken - {t}
  {
    assert forall x | x in other :: x !in wake by {
      assert forall x | x in asleep && x in other :: x in asleep * other;
    }
  }

  lemma WhereProducerIs(s: State, a: Action)
    requires Inv(s) && a.Produce? && Enabled(s, a)
    ensures var ts, t := s.threads, a.t;
            t !in AsleepWorkers(ts) && t !in AsleepProducers(ts) && t !in WokenWorkers(ts)
  {}

  lemma WhereConsumerIs(s: State, a: Action)
    requires Inv(s) && a.Consume? && Enabled(s, a)
    ensures var ts, t := s.threads, a.t;
            t !in AsleepWorkers(ts) && t !in AsleepProducers(ts) && t !in WokenProducers(ts)
  {}

  /** A notify to sleeping workers by a thread that is in neither half of their pair. */
  lemma WorkersNotified(ts: map<ThreadId, Pc>, wake: set<ThreadId>, t: ThreadId, pc: Pc)
    requires Notifies(wake, AsleepWorkers(ts)) && (pc.Idle? || pc.Working?)
    requires t !in AsleepWorkers(ts) && t !in AsleepProducers(ts) && t !in WokenWorkers(ts)
    ensures var us := WakeUp(ts, wake)[t := pc];
            && AsleepWorkers(us) <= AsleepWorkers(ts)
            && (AsleepWorkers(ts) != {} ==> |WokenWorkers(us)| > |WokenWorkers(ts)|)
            && AsleepProducers(us) == AsleepProducers(ts)
            && WokenProducers(us) == WokenProducers(ts) - {t}
  {
    hide WakeUp, AsleepWorkers, WokenWorkers, AsleepProducers, WokenProducers;
    var us := WakeUp(ts, wake)[t := pc];
    WokenUpWorkers(ts, wake);
    WokenUpProducers(ts, wake);
    AllDistinct(ts);
    Moved(WakeUp(ts, wake), t, pc);
    SetsAfterNotify(AsleepWorkers(ts), WokenWorkers(ts), AsleepProducers(ts), WokenProducers(ts), wake, t);
    if AsleepWorkers(ts) != {} { WakingAdds(WokenWorkers(ts), AsleepWorkers(ts), wake); }
  }

  lemma ProducersNotified(ts: map<ThreadId, Pc>, wake: set<ThreadId>, t: ThreadId)
    requires Notifies(wake, AsleepProducers(ts))
    requires t !in AsleepWorkers(ts) && t !in AsleepProducers(ts) && t !in WokenProducers(ts)
    ensures var us := WakeUp(ts, wake)[t := Working];
            && AsleepProducers(us) <= AsleepProducers(ts)
            && (AsleepProducers(ts) != {} ==> |WokenProducers(us)| > |WokenProducers(ts)|)
            && AsleepWorkers(us) == AsleepWorkers(ts)
            && WokenWorkers(us) == WokenWorkers(ts) - {t}
  {
    hide WakeUp, AsleepWorkers, WokenWorkers, AsleepProducers, WokenProducers;
    var us := WakeUp(ts, wake)[t := Working];
    WokenUpWorkers(ts, wake);
    WokenUpProducers(ts, wake);
    AllDistinct(ts);
    Moved(WakeUp(ts, wake), t, Working);
    SetsAfterNotify(AsleepProducers(ts), WokenProducers(ts), AsleepWorkers(ts), WokenWorkers(ts), wake, t);
    if AsleepProducers(ts) != {} { WakingAdds(WokenProducers(ts), AsleepProducers(ts), wake); }
  }

  lemma ProducerSleeps(s: State, after: State, t: ThreadId, pc: Pc)
    requires NoLostNotify(s) && IsFull(s) && pc.AsleepFull?
    requires after == s.(threads := s.threads[t := pc])
    requires t !in AsleepWorkers(s.threads) && t !in WokenWorkers(s.threads)
    ensures NoLostNotify(after)
  {
    hide AsleepWorkers, WokenWorkers, AsleepProducers, WokenProducers;
    Moved(s.threads, t, pc);
    assert AsleepWorkers(after.threads) == AsleepWorkers(s.threads);
    assert WokenWorkers(after.threads) == WokenWorkers(s.threads);
  }

  lemma TaskQueued(s: State, after: State, t: ThreadId, wake: set<ThreadId>, pc: Pc)
    requires NoLostNotify(s) && Notifies(wake, AsleepWorkers(s.threads)) && (pc.Idle? || pc.Working?)
    requires after.threads == WakeUp(s.threads, wake)[t := pc] && |after.queue| == |s.queue| + 1
    requires after.maxSize == s.maxSize && after.running == s.running
    requires t !in AsleepWorkers(s.threads) && t !in AsleepProducers(s.threads) && t !in WokenWorkers(s.threads)
    ensures NoLostNotify(after)
  {
    hide AsleepWorkers, WokenWorkers, AsleepProducers, WokenProducers, WakeUp, Notifies;
    WorkersNotified(s.threads, wake, t, pc);
    SizeMinus(WokenProducers(s.threads), t);
  }

  lemma ProduceKeepsNotify(s: State, a: Action)
    requires Inv(s) && a.Produce? && Enabled(s, a)
    ensures NoLostNotify(Do(s, a))
  {
    hide WakeUp, AsleepWorkers, WokenWorkers, AsleepProducers, WokenProducers, RolesFit, Notifies, NoLostNotify;
    WhereProducerIs(s, a);
    var worker := FromWorker(PcOf(s, a.t));
    if s.workers == {} {
      Unchanged(s, Do(s, a));
    } else if IsFull(s) {
      ProducerSleeps(s, Do(s, a), a.t, AsleepFull(a.task, worker));
    } else {
      TaskQueued(s, Do(s, a), a.t, a.wake, if worker then Working else Idle);
    }
  }

  lemma Unchanged(s: State, after: State)
    requires NoLostNotify(s) && after.threads == s.threads && after.queue == s.queue
    requires after.maxSize == s.maxSize && after.running == s.running
    ensures NoLostNotify(after)
  {}

  lemma WorkerFindsNone(s: State, after: State, t: ThreadId, pc: Pc)
    requires NoLostNotify(s) && s.queue == [] && pc == (if s.running then AsleepEmpty else Top)
    requires after == s.(threads := s.threads[t := pc])
    requires t !in AsleepProducers(s.threads) && t !in WokenProducers(s.threads)
    ensures NoLostNotify(after)
  {
    hide AsleepWorkers, WokenWorkers, AsleepProducers, WokenProducers;
    Moved(s.threads, t, pc);
    assert AsleepProducers(after.threads) == AsleepProducers(s.threads);
    assert WokenProducers(after.threads) == WokenProducers(s.threads);
    if !s.running { assert AsleepWorkers(after.threads) <= AsleepWorkers(s.threads); }
  }

  lemma TaskTaken(s: State, after: State, t: ThreadId, wake: set<ThreadId>)
    requires NoLostNotify(s) && (s.maxSize > 0 ==> Notifies(wake, AsleepProducers(s.threads)))
    requires after.threads == (if s.maxSize > 0 then WakeUp(s.threads, wake) else s.threads)[t := Working]
    requires |s.queue| == |after.queue| + 1 && after.maxSize == s.maxSize && after.running == s.running
    requires t !in AsleepWorkers(s.threads) && t !in AsleepProducers(s.threads) && t !in WokenProducers(s.threads)
    ensures NoLostNotify(after)
  {
    hide AsleepWorkers, WokenWorkers, AsleepProducers, WokenProducers, WakeUp, Notifies;
    SizeMinus(WokenWorkers(s.threads), t);
    if s.maxSize > 0 {
      ProducersNotified(s.threads, wake, t);
    } else {
      Moved(s.threads, t, Working);
      assert AsleepWorkers(after.threads) == AsleepWorkers(s.threads);
      assert AsleepProducers(after.threads) == AsleepProducers(s.threads);
    }
  }

  lemma ConsumeKeepsNotify(s: State, a: Action)
    requires Inv(s) && a.Consume? && Enabled(s, a)
    ensures NoLostNotify(Do(s, a))
  {
    hide WakeUp, AsleepWorkers, WokenWorkers, AsleepProducers, WokenProducers, RolesFit, Notifies, NoLostNotify;
    WhereConsumerIs(s, a);
    if s.queue == [] {
      WorkerFindsNone(s, Do(s, a), a.t, if s.running then AsleepEmpty else Top);
    } else {
      TaskTaken(s, Do(s, a), a.t, a.wake);
    }
  }

  lemma SpuriousKeepsNotify(s: State, t: ThreadId)
    requires Inv(s) && Enabled(s, Spurious(t))
    ensures NoLostNotify(Do(s, Spurious(t)))
  {
    hide WakeUp, AsleepWorkers, WokenWorkers, AsleepProducers, WokenProducers, RolesFit;
    var ts := s.threads;
    WokenUpWorkers(ts, {t});
    WokenUpProducers(ts, {t});
    Grows(WokenWorkers(ts), AsleepWorkers(ts) * {t});
    Grows(WokenProducers(ts), AsleepProducers(ts) * {t});
  }

  lemma StopKeepsNotify(s: State)
    requires Inv(s)
    ensures NoLostNotify(Do(s, Stop))
  {
    hide WakeUp, AsleepWorkers, WokenWorkers, AsleepProducers, WokenProducers, RolesFit;
    var ts := s.threads;
    WokenUpWorkers(ts, AsleepWorkers(ts));
    WokenUpProducers(ts, AsleepWorkers(ts));
    AllDistinct(ts);
    assert AsleepProducers(Do(s, Stop).threads) == AsleepProducers(ts);
    assert WokenProducers(Do(s, Stop).threads) == WokenProducers(ts);
  }

  lemma OtherKeepsNotify(s: State, a: Action)
    requires Inv(s) && Enabled(s, a) && (a.Check? || a.Finish? || a.Spurious? || a.Stop?)
    ensures NoLostNotify(Do(s, a))
  {
    hide WakeUp, AsleepWorkers, WokenWorkers, AsleepProducers, WokenProducers, RolesFit;
    match a
    case Spurious(t) => SpuriousKeepsNotify(s, t);
    case Stop => StopKeepsNotify(s);
    case _ => SameSets(s, a);
  }

  lemma SameSets(s: State, a: Action)
    requires Enabled(s, a) && (a.Check? || a.Finish?)
    ensures var us := Do(s, a).threads;
            && AsleepWorkers(us) == AsleepWorkers(s.threads)
            && WokenWorkers(us) == WokenWorkers(s.threads)
            && AsleepProducers(us) == AsleepProducers(s.threads)
            && WokenProducers(us) == WokenProducers(s.threads)
  {}

  lemma DoKeepsRoles(s: State, a: Action)
    requires Inv(s)
    ensures RolesFit(Do(s, a))
  {}

  lemma DoKeepsInv(s: State, a: Action)
    requires Inv(s)
    ensures Inv(Do(s, a))
  {
    DoKeepsRoles(s, a);
    hide RolesFit, NoLostNotify;
    if Enabled(s, a) {
      match a
      case Produce(_, task, _) =>
        ProduceKeepsNotify(s, a);
        assert s.taken + (s.queue + [task]) == (s.taken + s.queue) + [task];
      case Consume(_, _) =>
        ConsumeKeepsNotify(s, a);
        if s.queue != [] { assert (s.taken + [s.queue[0]]) + s.queue[1..] == s.taken + s.queue; }
      case _ => OtherKeepsNotify(s, a);
    }
  }

  lemma {:induction false} RunKeepsInv(s: State, acts: seq<Action>)
    requires Inv(s)
    ensures Inv(Run(s, acts))
  {
    if acts != [] {
      RunKeepsInv(s, acts[..|acts| - 1]);
      DoKeepsInv(Run(s, acts[..|acts| - 1]), acts[|acts| - 1]);
    }
  }

  lemma StartedIsGood(maxSize: nat, workers: set<ThreadId>)
    ensures Inv(Started(maxSize, workers))
  {}

  // ---------------------------------------------------------------------
  // Main results, for every interleaving
  // ---------------------------------------------------------------------

  /** The tasks that calls of run() got into the queue: those that found workers and room. */
  function QueuedBy(s: State, acts: seq<Action>): seq<Task> {
    if acts == [] then []
    else
      var before, a := acts[..|acts| - 1], acts[|acts| - 1];
      var u := Run(s, before);
      if a.Produce? && Enabled(u, a) && u.workers != {} && (u.maxSize == 0 || |u.queue| < u.maxSize)
      then QueuedBy(s, before) + [a.task]
      else QueuedBy(s, before)
  }

  lemma {:induction false} HistoryIsQueued(s: State, acts: seq<Action>)
    ensures Run(s, acts).history == s.history + QueuedBy(s, acts)
  {
    if acts != [] { HistoryIsQueued(s, acts[..|acts| - 1]); }
  }

  /** FIFO, each task of a call of run() exactly once, and never more than the maximum queued. */
  lemma TasksLeaveInOrder(maxSize: nat, workers: set<ThreadId>, acts: seq<Action>)
    ensures var s := Run(Started(maxSize, workers), acts);
            && s.taken + s.queue == s.history == QueuedBy(Started(maxSize, workers), acts)
            && s.taken <= s.history
            && (s.maxSize > 0 ==> |s.queue| <= s.maxSize)
  {
    StartedIsGood(maxSize, workers);
    RunKeepsInv(Started(maxSize, workers), acts);
    HistoryIsQueued(Started(maxSize, workers), acts);
    assert [] + QueuedBy(Started(maxSize, workers), acts) == QueuedBy(Started(maxSize, workers), acts);
  }

  /** The task of a caller inside run() is that of its own latest try. */
  function LatestTry(s: State, acts: seq<Action>, t: ThreadId): seq<Task> {
    if acts == [] then []
    else
      var before, a := acts[..|acts| - 1], acts[|acts| - 1];
      if a.Produce? && a.t == t && Enabled(Run(s, before), a) then [a.task] else LatestTry(s, before, t)
  }

  /** What a caller inside run() is trying to queue. */
  function Trying(s: State, t: ThreadId): seq<Task> {
    match PcOf(s, t)
    case AsleepFull(task, _) => [task]
    case WokenFull(task, _) => [task]
    case _ => []
  }

  lemma TryingAfter(s: State, a: Action, t: ThreadId)
    ensures Trying(Do(s, a), t) != [] ==>
              Trying(Do(s, a), t) == if a.Produce? && a.t == t && Enabled(s, a) then [a.task] else Trying(s, t)
  {}

  lemma {:induction false} CallersKeepTheirTask(maxSize: nat, workers: set<ThreadId>, acts: seq<Action>, t: ThreadId)
    ensures var s := Started(maxSize, workers);
            Trying(Run(s, acts), t) != [] ==> Trying(Run(s, acts), t) == LatestTry(s, acts, t)
  {
    if acts != [] {
      hide Do, Trying, Enabled;
      CallersKeepTheirTask(maxSize, workers, acts[..|acts| - 1], t);
      TryingAfter(Run(Started(maxSize, workers), acts[..|acts| - 1]), acts[|acts| - 1], t);
    }
  }

  /** A wait may end by itself at any time, and the thread then tries again. */
  lemma WaitMayEnd(s: State, t: ThreadId)
    requires Inv(s) && (PcOf(s, t).AsleepFull? || PcOf(s, t).AsleepEmpty?)
    ensures var u := Do(s, Spurious(t));
            && Inv(u) && u.queue == s.queue
            && match PcOf(s, t)
               case AsleepFull(task, _) => Enabled(u, Produce(t, task, AsleepWorkers(u.threads)))
               case _ => Enabled(u, Consume(t, AsleepProducers(u.threads)))
  {
    DoKeepsInv(s, Spurious(t));
    hide Inv;
  }

  /** A worker sleeps unsignalled only while every queued task has a woken worker of its own, and dually. */
  lemma SleepersAreNotNeeded(maxSize: nat, workers: set<ThreadId>, acts: seq<Action>)
    ensures var s := Run(Started(maxSize, workers), acts);
            && (AsleepWorkers(s.threads) != {} ==> |s.queue| <= |WokenWorkers(s.threads)|)
            && (AsleepProducers(s.threads) != {} ==> s.maxSize - |s.queue| <= |WokenProducers(s.threads)|)
            && (AsleepWorkers(s.threads) != {} && AsleepProducers(s.threads) != {} ==>
                  WokenWorkers(s.threads) != {} || WokenProducers(s.threads) != {})
  {
    StartedIsGood(maxSize, workers);
    RunKeepsInv(Started(maxSize, workers), acts);
  }

  /** No thread of the pool can move without a spurious wakeup or a new call from outside. */
  predicate Stalled(s: State) {
    forall t <- s.threads.Keys ::
      var pc := s.threads[t]; pc.Idle? || pc.AsleepFull? || pc.AsleepEmpty? || pc.Exited?
  }

  /** Every worker is itself blocked in run(), called from the task it is running. */
  predicate WorkersBlockedInRun(s: State) {
    forall t <- s.workers :: PcOf(s, t).AsleepFull?
  }

  /**
   * While the pool runs and has a worker, it stalls in just two ways: all work is done and nobody is
   * inside run(), or every worker waits on a full queue that only a worker could empty.
   */
  lemma StallsOnlyWhenDoneOrSelfBlocked(maxSize: nat, workers: set<ThreadId>, acts: seq<Action>)
    requires workers != {}
    ensures var s := Run(Started(maxSize, workers), acts);
            s.running && Stalled(s) ==>
              if WorkersBlockedInRun(s) then IsFull(s)
              else s.queue == [] && s.taken == s.history && AsleepProducers(s.threads) == {}
  {
    StartedIsGood(maxSize, workers);
    RunKeepsInv(Started(maxSize, workers), acts);
    var s := Run(Started(maxSize, workers), acts);
    WorkersFixed(Started(maxSize, workers), acts);
    if s.running && Stalled(s) {
      assert WokenWorkers(s.threads) == {} && WokenProducers(s.threads) == {};
      if WorkersBlockedInRun(s) {
        var t :| t in s.workers;
        assert t in AsleepProducers(s.threads);
      } else {
        var t :| t in s.workers && !PcOf(s, t).AsleepFull?;
        assert t in AsleepWorkers(s.threads);
        assert s.taken + [] == s.taken;
      }
    }
  }

  lemma {:induction false} WorkersFixed(s: State, acts: seq<Action>)
    ensures Run(s, acts).workers == s.workers && Run(s, acts).maxSize == s.maxSize
  {
    hide Do;
    if acts != [] {
      WorkersFixed(s, acts[..|acts| - 1]);
      StepFixesWorkers(Run(s, acts[..|acts| - 1]), acts[|acts| - 1]);
    }
  }

  lemma StepFixesWorkers(s: State, a: Action)
    ensures Do(s, a).workers == s.workers && Do(s, a).maxSize == s.maxSize
  {}

  /** Some task of the run called run() itself. */
  ghost predicate TaskCallsRun(maxSize: nat, workers: set<ThreadId>, acts: seq<Action>) {
    exists i :: 0 <= i < |acts| && CallsFromTask(Run(Started(maxSize, workers), acts[..i]), acts[i])
  }

  predicate CallsFromTask(s: State, a: Action) { a.Produce? && PcOf(s, a.t).Working? }

  /** No worker is inside run(). */
  predicate WorkersOutsideRun(s: State) {
    forall t <- s.threads.Keys ::
      match s.threads[t]
      case AsleepFull(_, worker) => !worker
      case WokenFull(_, worker) => !worker
      case _ => true
  }

  lemma {:induction false} WorkersStayOutside(maxSize: nat, workers: set<ThreadId>, acts: seq<Action>)
    requires !TaskCallsRun(maxSize, workers, acts)
    ensures WorkersOutsideRun(Run(Started(maxSize, workers), acts))
  {
    if acts != [] {
      var n := |acts| - 1;
      forall i | 0 <= i < n
        ensures !CallsFromTask(Run(Started(maxSize, workers), acts[..n][..i]), acts[..n][i])
      {
        assert acts[..n][..i] == acts[..i] && acts[..n][i] == acts[i];
      }
      WorkersStayOutside(maxSize, workers, acts[..n]);
      StepStaysOutside(Run(Started(maxSize, workers), acts[..n]), acts[n]);
    }
  }

  lemma StepStaysOutside(s: State, a: Action)
    requires WorkersOutsideRun(s) && !CallsFromTask(s, a)
    ensures WorkersOutsideRun(Do(s, a))
  {}

  /**
   * What a caller can do about it: with an unbounded queue, or if no task calls run(), the running
   * pool stalls only when all work is done and nobody is inside run().
   */
  lemma StallsOnlyWhenDone(maxSize: nat, workers: set<ThreadId>, acts: seq<Action>)
    requires workers != {} && (maxSize == 0 || !TaskCallsRun(maxSize, workers, acts))
    ensures var s := Run(Started(maxSize, workers), acts);
            s.running && Stalled(s) ==> s.queue == [] && s.taken == s.history && AsleepProducers(s.threads) == {}
  {
    var s := Run(Started(maxSize, workers), acts);
    StallsOnlyWhenDoneOrSelfBlocked(maxSize, workers, acts);
    WorkersFixed(Started(maxSize, workers), acts);
    StartedIsGood(maxSize, workers);
    RunKeepsInv(Started(maxSize, workers), acts);
    if maxSize > 0 { WorkersStayOutside(maxSize, workers, acts); }
    var t :| t in workers;
    assert PcOf(s, t).AsleepFull? ==> s.threads[t].worker && t in AsleepProducers(s.threads);
    hide Run, Inv, RolesFit, Stalled;
  }

  lemma RunOneMore(s: State, acts: seq<Action>, a: Action)
    ensures Run(s, acts + [a]) == Do(Run(s, acts), a)
  {
    assert (acts + [a])[..|acts|] == acts;
  }

  /** A running pool whose workers are at one place or, those of a given set, at another, and all else idle. */
  predicate Standing(s: State, moved: set<ThreadId>, there: Pc, here: Pc) {
    && s.running
    && s.workers <= s.threads.Keys
    && forall t <- s.threads.Keys ::
         if t in s.workers then s.threads[t] == (if t in moved then there else here) else s.threads[t].Idle?
  }

  lemma NobodyAsleep(s: State, moved: set<ThreadId>)
    requires Standing(s, moved, Working, Top)
    ensures AsleepWorkers(s.threads) == {} && AsleepProducers(s.threads) == {}
  {}

  /** A worker gets a task from a client ... */
  lemma GetsWork(s: State, moved: set<ThreadId>, t: ThreadId, client: ThreadId)
    requires Standing(s, moved, Working, Top) && s.queue == [] && s.maxSize > 0
    requires t in s.workers && t !in moved && client !in s.workers
    ensures var u := Do(Do(Do(s, Check(t)), Produce(client, 0, {})), Consume(t, {}));
            Standing(u, moved + {t}, Working, Top) && u.queue == [] && u.maxSize == s.maxSize && u.workers == s.workers
  {
    var s1 := Do(s, Check(t));
    assert AsleepWorkers(s1.threads) == {};
    var s2 := Do(s1, Produce(client, 0, {}));
    assert s2.queue == [0] && AsleepProducers(s2.threads) == {};
  }

  /** ... one of these tasks queues as many as there is room for ... */
  lemma Fills(s: State, t: ThreadId)
    requires Standing(s, s.workers, Working, Top) && !IsFull(s) && t in s.workers
    ensures var u := Do(s, Produce(t, 0, {}));
            Standing(u, s.workers, Working, Top) && |u.queue| == |s.queue| + 1
            && u.maxSize == s.maxSize && u.workers == s.workers
  {
    NobodyAsleep(s, s.workers);
  }

  /** ... and then every task queues one more. */
  lemma Blocks(s: State, moved: set<ThreadId>, t: ThreadId)
    requires Standing(s, moved, AsleepFull(0, true), Working) && IsFull(s) && t in s.workers && t !in moved
    ensures var u := Do(s, Produce(t, 0, {}));
            Standing(u, moved + {t}, AsleepFull(0, true), Working) && IsFull(u) && u.workers == s.workers
  {}

  lemma Outsider(workers: set<ThreadId>) returns (client: ThreadId)
    ensures client !in workers
  {
    client := 0;
    var rest := workers;
    while rest != {}
      invariant forall t | t in workers && t !in rest :: t < client
      decreases |rest|
    {
      var t :| t in rest;
      client := if client <= t then t + 1 else client;
      rest := rest - {t};
    }
  }

  /** Otherwise it happens: every pool with a bounded queue and a worker has a run that blocks itself. */
  lemma SelfBlockedPool(maxSize: nat, workers: set<ThreadId>) returns (acts: seq<Action>)
    requires maxSize > 0 && workers != {}
    ensures var s := Run(Started(maxSize, workers), acts);
            s.running && Stalled(s) && WorkersBlockedInRun(s) && IsFull(s)
  {
    hide Do, Run, Standing, Stalled;
    var s0 := Started(maxSize, workers);
    var client := Outsider(workers);
    acts := [];
    StartsStanding(maxSize, workers);
    var moved: set<ThreadId> := {};
    while moved != workers
      invariant moved <= workers
      invariant var s := Run(s0, acts);
                Standing(s, moved, Working, Top) && s.queue == [] && s.maxSize == maxSize && s.workers == workers
      decreases |workers - moved|
    {
      var t :| t in workers - moved;
      GetsWork(Run(s0, acts), moved, t, client);
      RunOneMore(s0, acts, Check(t));
      RunOneMore(s0, acts + [Check(t)], Produce(client, 0, {}));
      RunOneMore(s0, acts + [Check(t)] + [Produce(client, 0, {})], Consume(t, {}));
      acts := acts + [Check(t)] + [Produce(client, 0, {})] + [Consume(t, {})];
      assert workers - (moved + {t}) == workers - moved - {t};
      moved := moved + {t};
    }
    var first :| first in workers;
    while |Run(s0, acts).queue| < maxSize
      invariant var s := Run(s0, acts);
                && Standing(s, workers, Working, Top) && |s.queue| <= maxSize
                && s.maxSize == maxSize && s.workers == workers
      decreases maxSize - |Run(s0, acts).queue|
    {
      Fills(Run(s0, acts), first);
      RunOneMore(s0, acts, Produce(first, 0, {}));
      acts := acts + [Produce(first, 0, {})];
    }
    moved := {};
    AllWorking(Run(s0, acts));
    while moved != workers
      invariant moved <= workers
      invariant var s := Run(s0, acts);
                Standing(s, moved, AsleepFull(0, true), Working) && IsFull(s) && s.workers == workers
      decreases |workers - moved|
    {
      var t :| t in workers - moved;
      Blocks(Run(s0, acts), moved, t);
      RunOneMore(s0, acts, Produce(t, 0, {}));
      acts := acts + [Produce(t, 0, {})];
      assert workers - (moved + {t}) == workers - moved - {t};
      moved := moved + {t};
    }
    AllBlocked(Run(s0, acts));
  }

  lemma StartsStanding(maxSize: nat, workers: set<ThreadId>)
    ensures Run(Started(maxSize, workers), []) == Started(maxSize, workers)
    ensures Standing(Started(maxSize, workers), {}, Working, Top)
  {}

  lemma AllWorking(s: State)
    requires Standing(s, s.workers, Working, Top)
    ensures Standing(s, {}, AsleepFull(0, true), Working)
  {}

  lemma AllBlocked(s: State)
    requires Standing(s, s.workers, AsleepFull(0, true), Working)
    ensures s.running && Stalled(s) && WorkersBlockedInRun(s)
  {}

  // ---------------------------------------------------------------------
  // Progress
  // ---------------------------------------------------------------------

  /** A worker that neither waits nor is inside run(). */
  predicate OnItsWay(pc: Pc) { pc.Top? || pc.Entering? || pc.WokenEmpty? || pc.Working? }

  /** What it does next in runInThread. */
  function WorkerStep(s: State, t: ThreadId): Action {
    match PcOf(s, t)
    case Working => Finish(t)
    case Top => Check(t)
    case _ => Consume(t, AsleepProducers(s.threads))
  }

  /** How many such steps of this worker alone empty the queue. */
  function StepsToEmpty(s: State, t: ThreadId): nat {
    if s.queue == [] then 0
    else 3 * (|s.queue| - 1) + (if PcOf(s, t).Working? then 3 else if PcOf(s, t).Top? then 2 else 1)
  }

  lemma WorkerStepGetsCloser(s: State, t: ThreadId)
    requires Inv(s) && s.running && t in s.workers && OnItsWay(PcOf(s, t)) && s.queue != []
    ensures Enabled(s, WorkerStep(s, t))
    ensures var u := Do(s, WorkerStep(s, t));
            && Inv(u) && u.running && u.workers == s.workers && u.history == s.history
            && OnItsWay(PcOf(u, t)) && StepsToEmpty(u, t) < StepsToEmpty(s, t)
  {
    DoKeepsInv(s, WorkerStep(s, t));
    hide Inv;
  }

  /** While tasks are queued, some worker is on its way if any is outside run(). */
  lemma SomeoneIsOnTheWay(s: State, t: ThreadId) returns (u: ThreadId)
    requires Inv(s) && s.running && t in s.workers && !PcOf(s, t).AsleepFull? && !PcOf(s, t).WokenFull?
    requires s.queue != []
    ensures u in s.workers && OnItsWay(PcOf(s, u))
  {
    u := t;
    if PcOf(s, t).AsleepEmpty? {
      assert t in AsleepWorkers(s.threads);
      assert WokenWorkers(s.threads) != {};
      u :| u in WokenWorkers(s.threads);
    }
  }

  predicate WorkerActs(acts: seq<Action>, workers: set<ThreadId>) {
    forall a <- acts :: (a.Check? || a.Consume? || a.Finish?) && a.t in workers
  }

  /**
   * Progress. From every state of a running pool with a worker outside run(), the workers alone take
   * every queued task, in no more than three steps each.
   */
  lemma WorkersDrain(s: State, t: ThreadId) returns (acts: seq<Action>)
    requires Inv(s) && s.running && t in s.workers && !PcOf(s, t).AsleepFull? && !PcOf(s, t).WokenFull?
    ensures WorkerActs(acts, s.workers) && |acts| <= 3 * |s.queue|
    ensures var u := Run(s, acts); u.running && u.queue == [] && u.taken == s.history
  {
    hide Do, Inv, OnItsWay, WorkerStep, StepsToEmpty;
    acts := [];
    if s.queue == [] {
      NothingQueued(s);
      return;
    }
    var worker := SomeoneIsOnTheWay(s, t);
    StepsAreFew(s, worker);
    while Run(s, acts).queue != []
      invariant WorkerActs(acts, s.workers)
      invariant var u := Run(s, acts);
                && Inv(u) && u.running && u.workers == s.workers && u.history == s.history
                && OnItsWay(PcOf(u, worker)) && |acts| + StepsToEmpty(u, worker) <= 3 * |s.queue|
      decreases StepsToEmpty(Run(s, acts), worker)
    {
      var u := Run(s, acts);
      WorkerStepGetsCloser(u, worker);
      StepIsOwn(u, worker);
      RunOneMore(s, acts, WorkerStep(u, worker));
      acts := acts + [WorkerStep(u, worker)];
    }
    NothingQueued(Run(s, acts));
  }

  lemma NothingQueued(s: State)
    requires Inv(s) && s.queue == []
    ensures s.taken == s.history
  {
    assert s.taken + [] == s.taken;
  }

  lemma StepsAreFew(s: State, t: ThreadId)
    ensures StepsToEmpty(s, t) <= 3 * |s.queue|
  {}

  lemma StepIsOwn(s: State, t: ThreadId)
    ensures var a := WorkerStep(s, t); (a.Check? || a.Consume? || a.Finish?) && a.t == t
  {}

  // ---------------------------------------------------------------------
  // stop()
  // ---------------------------------------------------------------------

  /** The workers past their test of M_running, each of which takes a task more if there is one. */
  function LateWorkers(ts: map<ThreadId, Pc>): set<ThreadId> {
    set t | t in ts && (ts[t].Entering? || ts[t].WokenEmpty?)
  }

  /** The queued tasks for which a stopped pool has no such worker. */
  function Leftover(s: State): nat {
    if |s.queue| <= |LateWorkers(s.threads)| then 0 else |s.queue| - |LateWorkers(s.threads)|
  }

  /** The callers inside run(). */
  function InsideRun(ts: map<ThreadId, Pc>): set<ThreadId> {
    set t | t in ts && (ts[t].AsleepFull? || ts[t].WokenFull?)
  }

  /** The tasks queued or on their way into the queue, against the late workers. */
  function Surplus(s: State): int {
    |s.queue| + |InsideRun(s.threads)| - |LateWorkers(s.threads)|
  }

  predicate Produces(s: State, a: Action) { a.Produce? && Enabled(s, a) }

  /** A call of run(), as against a wait loop resumed inside one. */
  predicate NewCall(s: State, a: Action) { Produces(s, a) && !PcOf(s, a.t).WokenFull? }

  ghost predicate NoNewCalls(s: State, acts: seq<Action>) {
    forall i :: 0 <= i < |acts| ==> !NewCall(Run(s, acts[..i]), acts[i])
  }

  ghost predicate NobodyProduces(s: State, acts: seq<Action>) {
    forall i :: 0 <= i < |acts| ==> !Produces(Run(s, acts[..i]), acts[i])
  }

  lemma LateWorkersAfter(s: State, a: Action)
    requires Inv(s) && !s.running
    ensures LateWorkers(Do(s, a).threads)
            == if a.Consume? && Enabled(s, a) then LateWorkers(s.threads) - {a.t} else LateWorkers(s.threads)
    ensures a.Consume? && Enabled(s, a) ==> a.t in LateWorkers(s.threads)
  {
    assert AsleepWorkers(s.threads) == {};
    hide RolesFit, NoLostNotify;
  }

  lemma InsideRunAfter(s: State, a: Action)
    requires Inv(s) && !s.running
    ensures var inside, after := InsideRun(s.threads), InsideRun(Do(s, a).threads);
            if !Produces(s, a) || s.workers == {} then after == inside
            else if IsFull(s) then after == inside + {a.t}
            else after == inside - {a.t}
    ensures Produces(s, a) ==> (a.t in InsideRun(s.threads) <==> PcOf(s, a.t).WokenFull?)
  {
    assert AsleepWorkers(s.threads) == {};
    hide RolesFit, NoLostNotify;
  }

  lemma StoppedStep(s: State, a: Action)
    requires Inv(s) && !s.running
    ensures var t := Do(s, a);
            && !t.running && Leftover(s) <= Leftover(t) && (!Produces(s, a) ==> Leftover(t) == Leftover(s))
            && Surplus(s) <= Surplus(t)
            && (!NewCall(s, a) && InsideRun(s.threads) == {} ==> !Produces(s, a) && InsideRun(t.threads) == {})
  {
    LateWorkersAfter(s, a);
    InsideRunAfter(s, a);
    if a.Consume? { SizeMinus(LateWorkers(s.threads), a.t); }
    if Produces(s, a) {
      SizeMinus(InsideRun(s.threads), a.t);
      Grows(InsideRun(s.threads), {a.t});
    }
    hide LateWorkers, InsideRun, Inv;
  }

  lemma Shorter(s: State, acts: seq<Action>)
    requires acts != []
    ensures NoNewCalls(s, acts) ==> NoNewCalls(s, acts[..|acts| - 1])
    ensures NobodyProduces(s, acts) ==> NobodyProduces(s, acts[..|acts| - 1])
  {
    var before := acts[..|acts| - 1];
    forall i | 0 <= i < |before|
      ensures before[..i] == acts[..i] && before[i] == acts[i]
    {}
  }

  /** What every run from a stopped state keeps. */
  lemma {:induction false} StoppedRun(s: State, acts: seq<Action>)
    requires Inv(s) && !s.running
    ensures var t := Run(s, acts);
            && !t.running && Leftover(s) <= Leftover(t) && Surplus(s) <= Surplus(t)
            && (NobodyProduces(s, acts) ==> Leftover(t) == Leftover(s))
            && (NoNewCalls(s, acts) && InsideRun(s.threads) == {} ==>
                  NobodyProduces(s, acts) && InsideRun(t.threads) == {})
  {
    hide Do, Inv, Leftover, Surplus, InsideRun, NewCall, Produces;
    if acts != [] {
      var before := acts[..|acts| - 1];
      Shorter(s, acts);
      StoppedRun(s, before);
      RunKeepsInv(s, before);
      StoppedStep(Run(s, before), acts[|acts| - 1]);
      if NoNewCalls(s, acts) && InsideRun(s.threads) == {} { OneMoreProducesNot(s, acts); }
    }
  }

  lemma OneMoreProducesNot(s: State, acts: seq<Action>)
    requires acts != [] && NobodyProduces(s, acts[..|acts| - 1])
    requires !Produces(Run(s, acts[..|acts| - 1]), acts[|acts| - 1])
    ensures NobodyProduces(s, acts)
  {
    var before := acts[..|acts| - 1];
    forall i | 0 <= i < |acts|
      ensures !Produces(Run(s, acts[..i]), acts[i])
    {
      if i < |before| { assert before[..i] == acts[..i] && before[i] == acts[i]; }
    }
  }

  /**
   * What stop() leaves behind, in any run from a stopped state that ends with nothing able to move:
   * at least the tasks that have no late worker, and exactly these if nobody enters or is inside
   * run(); some task whenever those queued and those of the callers inside run() outnumber the late
   * workers; and a producer asleep only on a full queue.
   */
  lemma StopLeavesExactly(s: State, acts: seq<Action>)
    requires Inv(s) && !s.running && Stalled(Run(s, acts))
    ensures var t := Run(s, acts);
            && |t.queue| >= Leftover(s)
            && (NobodyProduces(s, acts) ==> |t.queue| == Leftover(s))
            && (NoNewCalls(s, acts) && InsideRun(s.threads) == {} ==> |t.queue| == Leftover(s))
            && (|s.queue| + |InsideRun(s.threads)| > |LateWorkers(s.threads)| ==> t.queue != [])
            && (AsleepProducers(t.threads) != {} ==> IsFull(t))
  {
    StoppedRun(s, acts);
    RunKeepsInv(s, acts);
    var t := Run(s, acts);
    StalledSets(t);
    hide Run, RolesFit, Stalled, LateWorkers, InsideRun, NoNewCalls, NobodyProduces;
  }

  lemma StalledSets(t: State)
    requires Stalled(t)
    ensures LateWorkers(t.threads) == {} && WokenProducers(t.threads) == {}
    ensures InsideRun(t.threads) == AsleepProducers(t.threads)
  {}

  /** No task can be left exactly when the late workers suffice and nobody is inside run(). */
  lemma StopLeavesNothing(s: State)
    requires Inv(s) && !s.running && s.workers != {}
    ensures (forall acts :: NoNewCalls(s, acts) && Stalled(Run(s, acts)) ==> Run(s, acts).queue == [])
            <==> |s.queue| <= |LateWorkers(s.threads)| && InsideRun(s.threads) == {}
  {
    if |s.queue| <= |LateWorkers(s.threads)| && InsideRun(s.threads) == {} {
      forall acts | NoNewCalls(s, acts) && Stalled(Run(s, acts))
        ensures Run(s, acts).queue == []
      {
        StopLeavesExactly(s, acts);
      }
    } else {
      var acts := LateWorkersFirst(s);
      StopLeavesExactly(s, acts);
    }
    hide Run, Inv, Stalled, InsideRun, LateWorkers, NoNewCalls;
  }

  /**
   * From every stopped state there is a run without new calls at whose end nothing can move; with the
   * late workers first and the callers after them it leaves a task if anybody is inside run().
   */
  lemma LateWorkersFirst(s: State) returns (acts: seq<Action>)
    requires Inv(s) && !s.running && s.workers != {}
    ensures NoNewCalls(s, acts) && Stalled(Run(s, acts))
    ensures InsideRun(s.threads) != {} ==> Run(s, acts).queue != []
  {
    hide Do, Run, Inv, Stalled, InsideRun, LateWorkers, NoNewCalls, WokenProducers;
    acts := LateWorkersRun(s);
    var more := CallersResume(Run(s, acts));
    RunTwice(s, acts, more);
    acts := acts + more;
    more := WorkersExit(Run(s, acts));
    RunTwice(s, acts, more);
    acts := acts + more;
  }

  /** Stopped, with workers, and a task in the queue or on its way there if there was one. */
  predicate Bound(s: State, waiting: bool) {
    Inv(s) && !s.running && s.workers != {} && (waiting ==> s.queue != [] || InsideRun(s.threads) != {})
  }

  lemma NoCallsYet(s: State)
    ensures Run(s, []) == s && NoNewCalls(s, [])
  {}

  lemma OneMoreStep(s: State, acts: seq<Action>, a: Action)
    requires NoNewCalls(s, acts) && !NewCall(Run(s, acts), a)
    ensures NoNewCalls(s, acts + [a]) && Run(s, acts + [a]) == Do(Run(s, acts), a)
  {
    var more := acts + [a];
    RunOneMore(s, acts, a);
    forall i | 0 <= i < |more|
      ensures !NewCall(Run(s, more[..i]), more[i])
    {
      assert more[..i] == acts[..i];
      if i == |acts| { assert acts[..i] == acts; }
    }
  }

  lemma {:induction false} RunTwice(s: State, acts: seq<Action>, more: seq<Action>)
    requires NoNewCalls(s, acts) && NoNewCalls(Run(s, acts), more)
    ensures NoNewCalls(s, acts + more) && Run(s, acts + more) == Run(Run(s, acts), more)
  {
    hide Do, NewCall;
    if more == [] {
      assert acts + more == acts;
    } else {
      var last := |more| - 1;
      Shorter(Run(s, acts), more);
      RunTwice(s, acts, more[..last]);
      assert !NewCall(Run(Run(s, acts), more[..last]), more[last]);
      OneMoreStep(s, acts + more[..last], more[last]);
      assert acts + more == acts + more[..last] + [more[last]];
    }
  }

  lemma LateWorkerTakes(s: State, t: ThreadId, waiting: bool)
    requires Bound(s, waiting) && (waiting ==> InsideRun(s.threads) != {}) && t in LateWorkers(s.threads)
    ensures var a := Consume(t, AsleepProducers(s.threads));
            && !NewCall(s, a) && Bound(Do(s, a), waiting) && InsideRun(Do(s, a).threads) == InsideRun(s.threads)
            && LateWorkers(Do(s, a).threads) == LateWorkers(s.threads) - {t}
  {
    var a := Consume(t, AsleepProducers(s.threads));
    LateWorkersAfter(s, a);
    InsideRunAfter(s, a);
    DoKeepsInv(s, a);
    hide Inv, InsideRun;
  }

  lemma LateWorkersRun(s: State) returns (acts: seq<Action>)
    requires Inv(s) && !s.running && s.workers != {}
    ensures NoNewCalls(s, acts) && Bound(Run(s, acts), InsideRun(s.threads) != {})
    ensures LateWorkers(Run(s, acts).threads) == {}
  {
    hide Do, Run, Inv, InsideRun, LateWorkers, NoNewCalls, NewCall;
    var waiting := InsideRun(s.threads) != {};
    acts := [];
    NoCallsYet(s);
    while LateWorkers(Run(s, acts).threads) != {}
      invariant NoNewCalls(s, acts)
      invariant var u := Run(s, acts); Bound(u, waiting) && InsideRun(u.threads) == InsideRun(s.threads)
      decreases |LateWorkers(Run(s, acts).threads)|
    {
      var u := Run(s, acts);
      var t :| t in LateWorkers(u.threads);
      LateWorkerTakes(u, t, waiting);
      OneMoreStep(s, acts, Consume(t, AsleepProducers(u.threads)));
      acts := acts + [Consume(t, AsleepProducers(u.threads))];
    }
  }

  lemma CallerResumes(s: State, t: ThreadId, waiting: bool)
    requires Bound(s, waiting) && LateWorkers(s.threads) == {} && t in WokenProducers(s.threads)
    ensures var a := Produce(t, s.threads[t].task, {});
            && !NewCall(s, a) && Bound(Do(s, a), waiting) && LateWorkers(Do(s, a).threads) == {}
            && WokenProducers(Do(s, a).threads) == WokenProducers(s.threads) - {t}
  {
    var a := Produce(t, s.threads[t].task, {});
    assert AsleepWorkers(s.threads) == {};
    LateWorkersAfter(s, a);
    InsideRunAfter(s, a);
    DoKeepsInv(s, a);
    NobodyWoken(s.threads);
    Moved(WakeUp(s.threads, {}), t, Do(s, a).threads[t]);
    hide Inv, InsideRun, LateWorkers, WokenProducers, WakeUp;
  }

  lemma NobodyWoken(ts: map<ThreadId, Pc>)
    ensures WakeUp(ts, {}) == ts
  {}

  lemma CallersResume(s: State) returns (acts: seq<Action>)
    requires Bound(s, s.queue != [] || InsideRun(s.threads) != {}) && LateWorkers(s.threads) == {}
    ensures var t := Run(s, acts);
            && NoNewCalls(s, acts) && Inv(t) && !t.running && t.workers != {}
            && LateWorkers(t.threads) == {} && WokenProducers(t.threads) == {}
            && (s.queue != [] || InsideRun(s.threads) != {} ==> t.queue != [])
  {
    hide Do, Run, Inv, InsideRun, LateWorkers, WokenProducers, NoNewCalls, NewCall;
    var waiting := s.queue != [] || InsideRun(s.threads) != {};
    acts := [];
    NoCallsYet(s);
    while WokenProducers(Run(s, acts).threads) != {}
      invariant NoNewCalls(s, acts)
      invariant Bound(Run(s, acts), waiting) && LateWorkers(Run(s, acts).threads) == {}
      decreases |WokenProducers(Run(s, acts).threads)|
    {
      var u := Run(s, acts);
      var t :| t in WokenProducers(u.threads);
      assert t in u.threads && u.threads[t].WokenFull? by { WokenIsThere(u.threads, t); }
      CallerResumes(u, t, waiting);
      OneMoreStep(s, acts, Produce(t, u.threads[t].task, {}));
      acts := acts + [Produce(t, u.threads[t].task, {})];
    }
    if waiting && Run(s, acts).queue == [] { SleepersMeanFull(Run(s, acts)); }
  }

  lemma WokenIsThere(ts: map<ThreadId, Pc>, t: ThreadId)
    requires t in WokenProducers(ts)
    ensures t in ts && ts[t].WokenFull?
  {}

  lemma SleepersMeanFull(s: State)
    requires Inv(s) && WokenProducers(s.threads) == {} && InsideRun(s.threads) != {}
    ensures s.queue != []
  {
    assert InsideRun(s.threads) == AsleepProducers(s.threads) + WokenProducers(s.threads);
  }

  function At(ts: map<ThreadId, Pc>, pc: Pc): set<ThreadId> { set t | t in ts && ts[t] == pc }

  /** Stopped, and all that can move are workers on their way out. */
  predicate Leaving(s: State, queue: seq<Task>) {
    Inv(s) && !s.running && s.queue == queue && LateWorkers(s.threads) == {} && WokenProducers(s.threads) == {}
  }

  lemma WorkerLeaves(s: State, t: ThreadId, a: Action)
    requires Leaving(s, s.queue) && t in s.threads
    requires (a == Finish(t) && s.threads[t] == Working) || (a == Check(t) && s.threads[t] == Top)
    ensures var u := Do(s, a);
            && !NewCall(s, a) && Leaving(u, s.queue)
            && At(u.threads, Working) == At(s.threads, Working) - {t}
            && At(u.threads, Top) == if a.Finish? then At(s.threads, Top) + {t} else At(s.threads, Top) - {t}
  {
    DoKeepsInv(s, a);
    hide Inv;
  }

  lemma WorkersExit(s: State) returns (acts: seq<Action>)
    requires Leaving(s, s.queue)
    ensures NoNewCalls(s, acts) && Stalled(Run(s, acts)) && Run(s, acts).queue == s.queue
  {
    hide Do, Run, NoNewCalls, NewCall, Leaving, At, Stalled;
    acts := [];
    NoCallsYet(s);
    while At(Run(s, acts).threads, Working) != {}
      invariant NoNewCalls(s, acts) && Leaving(Run(s, acts), s.queue)
      decreases |At(Run(s, acts).threads, Working)|
    {
      var u := Run(s, acts);
      var t :| t in At(u.threads, Working);
      IsAt(u, t, Working);
      WorkerLeaves(u, t, Finish(t));
      OneMoreStep(s, acts, Finish(t));
      acts := acts + [Finish(t)];
    }
    while At(Run(s, acts).threads, Top) != {}
      invariant NoNewCalls(s, acts) && Leaving(Run(s, acts), s.queue) && At(Run(s, acts).threads, Working) == {}
      decreases |At(Run(s, acts).threads, Top)|
    {
      var u := Run(s, acts);
      var t :| t in At(u.threads, Top);
      IsAt(u, t, Top);
      WorkerLeaves(u, t, Check(t));
      OneMoreStep(s, acts, Check(t));
      acts := acts + [Check(t)];
    }
    NobodyMoves(Run(s, acts), s.queue);
  }

  lemma IsAt(s: State, t: ThreadId, pc: Pc)
    requires t in At(s.threads, pc)
    ensures t in s.threads && s.threads[t] == pc
    ensures forall queue :: Leaving(s, queue) ==> s.queue == queue
  {}

  lemma NobodyMoves(s: State, queue: seq<Task>)
    requires Leaving(s, queue) && At(s.threads, Working) == {} && At(s.threads, Top) == {}
    ensures Stalled(s) && s.queue == queue
  {
    forall t <- s.threads.Keys
      ensures var pc := s.threads[t]; pc.Idle? || pc.AsleepFull? || pc.AsleepEmpty? || pc.Exited?
    {
      assert t !in At(s.threads, Working) && t !in At(s.threads, Top);
      assert t !in LateWorkers(s.threads) && t !in WokenProducers(s.threads);
    }
  }

  lemma FiveSteps(s: State, a: Action, b: Action, c: Action, d: Action, e: Action)
    ensures Run(s, [a, b, c, d, e]) == Do(Do(Do(Do(Do(s, a), b), c), d), e)
  {
    assert [a, b, c, d, e][..4] == [a, b, c, d] && [a, b, c, d][..3] == [a, b, c];
    assert [a, b, c][..2] == [a, b] && [a, b][..1] == [a] && [a][..0] == [];
    assert Run(s, [a]) == Do(Run(s, []), a);
    assert Run(s, [a, b]) == Do(Run(s, [a]), b);
    assert Run(s, [a, b, c]) == Do(Run(s, [a, b]), c);
    assert Run(s, [a, b, c, d]) == Do(Run(s, [a, b, c]), d);
  }

  /** After stop() no worker is left asleep: each of them gets to see the cleared flag. */
  lemma StopWakesAllWorkers(maxSize: nat, workers: set<ThreadId>, acts: seq<Action>)
    ensures var s := Run(Started(maxSize, workers), acts);
            !s.running ==> AsleepWorkers(s.threads) == {}
  {
    StartedIsGood(maxSize, workers);
    RunKeepsInv(Started(maxSize, workers), acts);
  }

  /** stop() promises nothing about the queue: a task can be left behind and its next producer asleep. */
  lemma StopLeavesTasksAndProducers()
    ensures var s := Run(Started(1, {0}), [Produce(7, 1, {}), Produce(8, 2, {}), Stop, Check(0), Check(0)]);
            !s.running && Stalled(s) && s.queue == [1] && 8 in AsleepProducers(s.threads)
  {
    var s0 := Started(1, {0});
    var s1 := Do(s0, Produce(7, 1, {}));
    assert AsleepWorkers(s0.threads) == {};
    var s2 := Do(s1, Produce(8, 2, {}));
    var s3 := Do(s2, Stop);
    assert AsleepWorkers(s2.threads) == {};
    var s4 := Do(s3, Check(0));
    assert s4.threads.Keys == {0, 7, 8};
    FiveSteps(s0, Produce(7, 1, {}), Produce(8, 2, {}), Stop, Check(0), Check(0));
  }
}
