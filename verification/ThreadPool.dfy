/**
 * The ThreadPool class. Its object is always in a state of some run of the monitor, so all that
 * PoolMonitor proves of runs holds of it, whatever the other threads do while one waits.
 */
module ThreadPoolClass {
  import opened PoolMonitor

  datatype TakeResult = StillAsleep | Nothing | Got(task: Task)

  function Actor(a: Action): set<ThreadId> {
    match a
    case Produce(t, _, _) => {t}
    case Check(t) => {t}
    case Consume(t, _) => {t}
    case Finish(t) => {t}
    case Spurious(_) => {}
    case Stop => {}
  }

  /** Another thread's step moves a given thread only by waking it. */
  lemma OthersOnlyWake(s: State, a: Action, t: ThreadId)
    requires t !in Actor(a)
    ensures PcOf(Do(s, a), t) in {PcOf(s, t), Woken(PcOf(s, t))}
  {}

  lemma LogsGrow(s: State, a: Action)
    ensures s.history <= Do(s, a).history && s.taken <= Do(s, a).taken
  {}

  /** The tasks a thread's own take() calls returned. */
  function TakenBy(s: State, acts: seq<Action>, t: ThreadId): seq<Task> {
    if acts == [] then []
    else
      var before, a := acts[..|acts| - 1], acts[|acts| - 1];
      TakenBy(s, before, t) + TakenIn(PoolMonitor.Run(s, before), a, t)
  }

  function TakenIn(s: State, a: Action, t: ThreadId): seq<Task> {
    if a.Consume? && a.t == t && Enabled(s, a) && s.queue != [] then [s.queue[0]] else []
  }

  lemma TakenByOneMore(s: State, acts: seq<Action>, a: Action, t: ThreadId)
    ensures TakenBy(s, acts + [a], t) == TakenBy(s, acts, t) + TakenIn(PoolMonitor.Run(s, acts), a, t)
    ensures TakenIn(PoolMonitor.Run(s, acts), a, t) == [] ==> TakenBy(s, acts + [a], t) == TakenBy(s, acts, t)
  {
    assert (acts + [a])[..|acts|] == acts;
  }

  /** The log has grown since, and its last entry is this task. */
  predicate Extends(before: seq<Task>, after: seq<Task>, task: Task) {
    |before| < |after| && before <= after[..|after| - 1] && after[|after| - 1] == task
  }

  class ThreadPool {
    var queue: seq<Task>
    var maxQueueSize: nat
    var running: bool

    // The threads and the waiters of the two conditions, and what other threads do at each coming wait.
    var threads: map<ThreadId, Pc>
    const workers: set<ThreadId>
    var schedule: seq<seq<Action>>

    ghost var taken: seq<Task>
    ghost var history: seq<Task>
    ghost var inlined: seq<Task>
    ghost var trace: seq<Action>
    ghost const started: State

    ghost function Abs(): State
      reads this
    {
      State(queue, maxQueueSize, running, threads, workers, taken, history, inlined)
    }

    ghost predicate Ok()
      reads this
    {
      Inv(started) && Abs() == PoolMonitor.Run(started, trace)
    }

    constructor (maxQueueSize: nat, workers: set<ThreadId>, schedule: seq<seq<Action>>)
      ensures Ok() && Abs() == started == Started(maxQueueSize, workers)
    {
      queue, this.maxQueueSize, running := [], maxQueueSize, true;
      threads := map t | t in workers :: Top;
      this.workers, this.schedule := workers, schedule;
      taken, history, inlined, trace := [], [], [], [];
      started := Started(maxQueueSize, workers);
      StartedIsGood(maxQueueSize, workers);
    }

    ghost method Commit(a: Action, before: State)
      requires Inv(started) && before == PoolMonitor.Run(started, trace) && Abs() == Do(before, a)
      modifies this`trace
      ensures Ok() && trace == old(trace) + [a]
      ensures forall t :: Mine(t) == if TakenIn(before, a, t) == [] then old(Mine(t))
                                     else old(Mine(t)) + TakenIn(before, a, t)
    {
      RunOneMore(started, trace, a);
      forall t
        ensures TakenBy(started, trace + [a], t) == TakenBy(started, trace, t) + TakenIn(before, a, t)
        ensures TakenIn(before, a, t) == [] ==> TakenBy(started, trace + [a], t) == TakenBy(started, trace, t)
      {
        TakenByOneMore(started, trace, a, t);
      }
      trace := trace + [a];
    }

    /** What this thread has taken so far. */
    ghost function Mine(t: ThreadId): seq<Task>
      reads this
    {
      TakenBy(started, trace, t)
    }

    function Pc(t: ThreadId): PoolMonitor.Pc
      reads this
    {
      if t in threads then threads[t] else Idle
    }

    /** pthread_cond_signal: some waiter, if there is one. */
    method Signal(asleep: set<ThreadId>) returns (wake: set<ThreadId>)
      ensures Notifies(wake, asleep) && |wake| <= 1
    {
      if asleep == {} {
        wake := {};
      } else {
        var t :| t in asleep;
        wake := {t};
      }
    }

    /** One step of some other thread. */
    method OtherThread(me: ThreadId, a: Action)
      requires Ok() && me !in Actor(a)
      modifies this
      ensures Ok() && old(trace) <= trace && schedule == old(schedule)
      ensures old(history) <= history && old(taken) <= taken
      ensures Pc(me) in {old(Pc(me)), Woken(old(Pc(me)))} && Mine(me) == old(Mine(me))
    {
      ghost var before := Abs();
      OthersOnlyWake(before, a, me);
      ghost var after := Do(before, a);
      var s := Do(State(queue, maxQueueSize, running, threads, workers, [], [], []), a);
      SameStep(before, a);
      LogsGrow(before, a);
      queue, maxQueueSize, running, threads := s.queue, s.maxSize, s.running, s.threads;
      taken, history, inlined := after.taken, after.history, after.inlined;
      Commit(a, before);
    }

    /** The logs are only written. */
    static lemma SameStep(s: State, a: Action)
      ensures var s' := Do(s.(taken := [], history := [], inlined := []), a);
              var after := Do(s, a);
              && s'.queue == after.queue && s'.maxSize == after.maxSize && s'.running == after.running
              && s'.threads == after.threads && after.workers == s.workers
    {}

    /** Blocked in pthread_cond_wait: other threads run until this one is woken, and then a while longer. */
    method AwaitWakeup(me: ThreadId) returns (woken: bool)
      requires Ok() && (Pc(me).AsleepFull? || Pc(me).AsleepEmpty?)
      modifies this
      ensures Ok() && old(trace) <= trace && |schedule| <= |old(schedule)|
      ensures old(history) <= history && old(taken) <= taken && Mine(me) == old(Mine(me))
      ensures Pc(me) == if woken then Woken(old(Pc(me))) else old(Pc(me))
      ensures woken ==> |schedule| < |old(schedule)|
    {
      hide PoolMonitor.Run, Inv, Do, TakenBy;
      ghost var asleep := Pc(me);
      woken := false;
      while schedule != [] && !woken
        invariant Ok() && old(trace) <= trace && |schedule| <= |old(schedule)|
        invariant old(history) <= history && old(taken) <= taken && Mine(me) == old(Mine(me))
        invariant Pc(me) == if woken then Woken(asleep) else asleep
        invariant woken ==> |schedule| < |old(schedule)|
        decreases |schedule|
      {
        var acts := schedule[0];
        schedule := schedule[1..];
        ghost var left := |schedule|;
        for i := 0 to |acts|
          invariant Ok() && old(trace) <= trace && |schedule| == left
          invariant old(history) <= history && old(taken) <= taken && Mine(me) == old(Mine(me))
          invariant Pc(me) in {asleep, Woken(asleep)}
        {
          if me !in Actor(acts[i]) { OtherThread(me, acts[i]); }
        }
        woken := Pc(me).WokenFull? || Pc(me).WokenEmpty?;
      }
    }

    method IsFull() returns (full: bool)
      ensures full == PoolMonitor.IsFull(Abs())
    {
      full := maxQueueSize > 0 && |queue| >= maxQueueSize;
    }

    method BlockOnFull(me: ThreadId, task: Task)
      requires Ok() && MayProduce(Pc(me), task) && workers != {} && PoolMonitor.IsFull(Abs())
      modifies this
      ensures Ok() && Pc(me) == AsleepFull(task, old(FromWorker(Pc(me)))) && schedule == old(schedule)
      ensures trace == old(trace) + [Produce(me, task, {})] && history == old(history)
    {
      ghost var before := Abs();
      threads := threads[me := AsleepFull(task, FromWorker(Pc(me)))];
      Commit(Produce(me, task, {}), before);
    }

    static lemma SomeoneWoke(ts: map<ThreadId, PoolMonitor.Pc>, wake: set<ThreadId>, me: ThreadId, pc: PoolMonitor.Pc)
      requires me !in wake
      ensures Notifies(wake, AsleepWorkers(ts)) && AsleepWorkers(ts) != {} ==>
                AsleepWorkers(ts) * WokenWorkers(WakeUp(ts, wake)[me := pc]) != {}
      ensures Notifies(wake, AsleepProducers(ts)) && AsleepProducers(ts) != {} ==>
                AsleepProducers(ts) * WokenProducers(WakeUp(ts, wake)[me := pc]) != {}
    {
      if t :| t in wake {
        assert t in AsleepWorkers(ts) ==> t in AsleepWorkers(ts) * WokenWorkers(WakeUp(ts, wake)[me := pc]);
        assert t in AsleepProducers(ts) ==> t in AsleepProducers(ts) * WokenProducers(WakeUp(ts, wake)[me := pc]);
      }
    }

    static lemma SomeoneIsIn(wake: set<ThreadId>, asleep: set<ThreadId>)
      requires Notifies(wake, asleep)
      ensures wake <= asleep
    {}

    lemma NotAsleep(me: ThreadId)
      ensures !Pc(me).AsleepEmpty? ==> me !in AsleepWorkers(threads)
      ensures !Pc(me).AsleepFull? ==> me !in AsleepProducers(threads)
    {}

    method PushAndNotify(me: ThreadId, task: Task)
      requires Ok() && MayProduce(Pc(me), task) && workers != {} && !PoolMonitor.IsFull(Abs())
      modifies this
      ensures Ok() && old(trace) <= trace && history == old(history) + [task]
      ensures queue == old(queue) + [task] && Pc(me) == if old(FromWorker(Pc(me))) then Working else Idle
      ensures old(AsleepWorkers(threads)) != {} ==> old(AsleepWorkers(threads)) * WokenWorkers(threads) != {}
    {
      hide PoolMonitor.Run, Inv, AsleepWorkers, WokenWorkers, WakeUp, Notifies;
      ghost var before := Abs();
      var worker := FromWorker(Pc(me));
      NotAsleep(me);
      queue := queue + [task];
      history := history + [task];
      var wake := Signal(AsleepWorkers(threads));
      SomeoneIsIn(wake, AsleepWorkers(threads));
      SomeoneWoke(threads, wake, me, if worker then Working else Idle);
      threads := WakeUp(threads, wake)[me := if worker then Working else Idle];
      Commit(Produce(me, task, wake), before);
    }

    /** Comes back undone when the planned schedule leaves the caller asleep. */
    method Run(me: ThreadId, task: Task) returns (done: bool)
      requires Ok() && (Pc(me).Idle? || Pc(me).Working?)
      modifies this
      ensures Ok() && old(trace) <= trace
      ensures workers == {} ==> done && inlined == old(inlined) + [task] && queue == old(queue)
      ensures workers != {} && done ==> queue != [] && Extends(old(history), history, task)
      ensures !done ==> Pc(me).AsleepFull?
      ensures Inv(Abs())
    {
      ghost var before := Abs();
      if workers == {} {
        inlined := inlined + [task];
        Commit(Produce(me, task, {}), before);
        RunKeepsInv(started, trace);
        return true;
      }
      done := RunQueued(me, task);
      RunKeepsInv(started, trace);
    }

    method RunQueued(me: ThreadId, task: Task) returns (done: bool)
      requires Ok() && MayProduce(Pc(me), task) && workers != {}
      modifies this
      ensures Ok() && old(trace) <= trace
      ensures done ==> queue != [] && Extends(old(history), history, task)
      ensures !done ==> Pc(me).AsleepFull?
    {
      hide PoolMonitor.Run, Inv, Do;
      var full := IsFull();
      while full
        invariant Ok() && old(trace) <= trace && MayProduce(Pc(me), task) && old(history) <= history
        invariant full == PoolMonitor.IsFull(Abs())
        decreases |schedule|
      {
        BlockOnFull(me, task);
        var woken := AwaitWakeup(me);
        if !woken { return false; }
        full := IsFull();
      }
      PushAndNotify(me, task);
      return true;
    }

    method BlockOnEmpty(me: ThreadId)
      requires Ok() && (Pc(me).Entering? || Pc(me).WokenEmpty?) && queue == [] && running
      modifies this
      ensures Ok() && Pc(me) == AsleepEmpty && schedule == old(schedule)
      ensures trace == old(trace) + [Consume(me, {})] && taken == old(taken) && Mine(me) == old(Mine(me))
    {
      ghost var before := Abs();
      threads := threads[me := AsleepEmpty];
      Commit(Consume(me, {}), before);
    }

    method PopAndNotify(me: ThreadId) returns (task: Task)
      requires Ok() && (Pc(me).Entering? || Pc(me).WokenEmpty?) && queue != []
      modifies this
      ensures Ok() && old(trace) <= trace && taken == old(taken) + [task]
      ensures [task] + queue == old(queue) && Pc(me) == Working && Mine(me) == old(Mine(me)) + [task]
      ensures maxQueueSize > 0 && old(AsleepProducers(threads)) != {} ==>
                old(AsleepProducers(threads)) * WokenProducers(threads) != {}
    {
      hide PoolMonitor.Run, Inv, AsleepProducers, WokenProducers, WakeUp, Notifies;
      ghost var before := Abs();
      NotAsleep(me);
      task := queue[0];
      queue := queue[1..];
      taken := taken + [task];
      var wake: set<ThreadId> := {};
      if maxQueueSize > 0 {
        wake := Signal(AsleepProducers(threads));
        SomeoneIsIn(wake, AsleepProducers(threads));
        SomeoneWoke(threads, wake, me, Working);
        threads := WakeUp(threads, wake);
      }
      threads := threads[me := Working];
      Commit(Consume(me, wake), before);
    }

    method ReturnNothing(me: ThreadId)
      requires Ok() && (Pc(me).Entering? || Pc(me).WokenEmpty?) && queue == [] && !running
      modifies this
      ensures Ok() && Pc(me) == Top && old(trace) <= trace && taken == old(taken)
      ensures queue == [] && !running && Mine(me) == old(Mine(me))
    {
      ghost var before := Abs();
      threads := threads[me := Top];
      Commit(Consume(me, {}), before);
    }

    /** take(): the oldest task, or nothing once the pool has stopped and the queue is empty. */
    method Take(me: ThreadId) returns (r: TakeResult)
      requires Ok() && Pc(me).Entering?
      modifies this
      ensures Ok() && old(trace) <= trace && Inv(Abs())
      ensures r.Got? ==> Pc(me) == Working && Extends(old(taken), taken, r.task)
      ensures r.Nothing? ==> !running && queue == [] && Pc(me) == Top
      ensures r.StillAsleep? ==> Pc(me) == AsleepEmpty
      ensures Mine(me) == if r.Got? then old(Mine(me)) + [r.task] else old(Mine(me))
    {
      r := TakeWaiting(me);
      RunKeepsInv(started, trace);
    }

    method TakeWaiting(me: ThreadId) returns (r: TakeResult)
      requires Ok() && Pc(me).Entering?
      modifies this
      ensures Ok() && old(trace) <= trace
      ensures r.Got? ==> Pc(me) == Working && Extends(old(taken), taken, r.task)
      ensures r.Nothing? ==> !running && queue == [] && Pc(me) == Top
      ensures r.StillAsleep? ==> Pc(me) == AsleepEmpty
      ensures Mine(me) == if r.Got? then old(Mine(me)) + [r.task] else old(Mine(me))
    {
      hide PoolMonitor.Run, Inv, Do, TakenBy;
      while queue == [] && running
        invariant Ok() && old(trace) <= trace && (Pc(me).Entering? || Pc(me).WokenEmpty?)
        invariant old(taken) <= taken && Mine(me) == old(Mine(me))
        decreases |schedule|
      {
        BlockOnEmpty(me);
        var woken := AwaitWakeup(me);
        if !woken { return StillAsleep; }
      }
      if queue != [] {
        var task := PopAndNotify(me);
        return Got(task);
      }
      ReturnNothing(me);
      return Nothing;
    }

    /** while(M_running) in runInThread. */
    method TestRunning(me: ThreadId) returns (going: bool)
      requires Ok() && Pc(me).Top?
      modifies this
      ensures Ok() && trace == old(trace) + [Check(me)] && going == old(running) == running
      ensures Pc(me) == (if going then Entering else Exited) && Mine(me) == old(Mine(me))
      ensures queue == old(queue) && taken == old(taken) && history == old(history)
    {
      ghost var before := Abs();
      going := running;
      threads := threads[me := if going then Entering else Exited];
      Commit(Check(me), before);
    }

    /** The task returns. */
    method FinishTask(me: ThreadId)
      requires Ok() && Pc(me).Working?
      modifies this
      ensures Ok() && trace == old(trace) + [Finish(me)] && Pc(me) == Top && Mine(me) == old(Mine(me))
      ensures queue == old(queue) && taken == old(taken) && history == old(history) && running == old(running)
    {
      ghost var before := Abs();
      threads := threads[me := Top];
      Commit(Finish(me), before);
    }

    /** Other threads run between two steps of this one, which is not waiting. */
    method LetOthersRun(me: ThreadId)
      requires Ok() && Woken(Pc(me)) == Pc(me)
      modifies this
      ensures Ok() && old(trace) <= trace && Pc(me) == old(Pc(me)) && Mine(me) == old(Mine(me))
    {
      hide PoolMonitor.Run, Inv, Do, TakenBy;
      if schedule == [] { return; }
      var acts := schedule[0];
      schedule := schedule[1..];
      for i := 0 to |acts|
        invariant Ok() && old(trace) <= trace && Pc(me) == old(Pc(me)) && Mine(me) == old(Mine(me))
      {
        if me !in Actor(acts[i]) { OtherThread(me, acts[i]); }
      }
    }

    /**
     * runInThread, for so many rounds: the worker executes exactly the tasks it takes, in order, and
     * leaves only once the pool has stopped.
     */
    method RunInThread(me: ThreadId, rounds: nat) returns (left: bool, executed: seq<Task>)
      requires Ok() && Pc(me).Top?
      modifies this
      ensures Ok() && old(trace) <= trace && Mine(me) == old(Mine(me)) + executed
      ensures left ==> Pc(me).Exited? && !running
      ensures !left ==> Pc(me).Top? || Pc(me).AsleepEmpty?
    {
      hide PoolMonitor.Run, Inv, Do, TakenBy;
      left, executed := false, [];
      for i := 0 to rounds
        invariant Ok() && old(trace) <= trace && Mine(me) == old(Mine(me)) + executed && Pc(me).Top? && !left
      {
        LetOthersRun(me);
        var going := TestRunning(me);
        if !going { return true, executed; }
        LetOthersRun(me);
        var r := Take(me);
        match r {
          case StillAsleep => return false, executed;
          case Nothing =>
          case Got(task) =>
            executed := executed + [task];
            LetOthersRun(me);
            FinishTask(me);
        }
      }
    }

    method Stop()
      requires Ok()
      modifies this
      ensures Ok() && !running && AsleepWorkers(threads) == {} && queue == old(queue)
    {
      ghost var before := Abs();
      running := false;
      threads := WakeUp(threads, AsleepWorkers(threads));
      Commit(PoolMonitor.Stop, before);
    }
  }
}
