/**
 The pool itself, with its fields updated in place.  Every method is one
 stretch of code under the pool mutex and does the step of `PoolState` that it
 is named after; what holds over all runs of those steps is proved there.
 */
module ThreadPools {
  import opened Base
  import opened PoolState
  import WC = WaitConditions

  class ThreadPool {
    const maxThreads: nat
    const taskReady: WC.WaitCondition
    var exiting: bool
    var pol: nat
    var res: nat
    var idl: nat
    var all: seq<nat>
    var ret: seq<nat>
    var queue: multiset<Task>
    var workers: seq<Worker>
    ghost var accepted: multiset<Task>
    ghost var done: multiset<Task>

    ghost function View(): Pool
      reads this, taskReady
    {
      Pool(maxThreads, exiting, pol, res, idl, all, ret, queue, taskReady.waiters, taskReady.wakeups, workers,
           accepted, done)
    }

    ghost predicate Valid()
      reads this, taskReady
    {
      Sound(View())
    }

    constructor (idealCount: nat)
      requires 1 <= idealCount < 0x8000_0000
      ensures Valid() && fresh(taskReady)
      ensures View() == Init(idealCount)
    {
      maxThreads := idealCount;
      taskReady := new WC.WaitCondition();
      exiting, pol, res, idl := false, 0, 0, 0;
      all, ret, queue, workers := [], [], multiset{}, [];
      accepted, done := multiset{}, multiset{};
      new;
      InitSound(idealCount);
    }

    function ActiveThreads(): (n: nat)
      reads this, taskReady
      ensures n == Active(View())
    {
      (|all| + res - |ret| - idl) % TWO32
    }

    function IsOverworking(): (b: bool)
      reads this, taskReady
      ensures b == PoolState.Overworking(View())
    {
      ActiveThreads() > maxThreads
    }

    method Enqueue(task: Task)
      modifies this`queue, taskReady
      ensures View() == PoolState.Enqueue(old(View()), task)
    {
      queue := queue + multiset{task};
      taskReady.SignalOne();
    }

    method Spawn(task: Task)
      modifies this
      ensures View() == PoolState.Spawn(old(View()), task)
    {
      var thread := |workers|;
      workers := workers + [Worker(Running, Some(task))];
      all := all + [thread];
      pol := Inc32(pol);
    }

    method TryStart(task: Task) returns (ok: bool)
      requires ret != [] ==> ret[|ret| - 1] < |workers|
      modifies this, taskReady
      ensures ok == CanStart(old(View()))
      ensures View() == if ok then Place(old(View()), task) else old(View())
    {
      if ActiveThreads() >= maxThreads {
        return false;
      }
      if idl > 0 {
        idl := idl - 1;
        Enqueue(task);
        return true;
      }
      if ret != [] {
        var thread := ret[|ret| - 1];
        ret := ret[..|ret| - 1];
        pol := Inc32(pol);
        workers := workers[thread := Worker(Running, Some(task))];
        return true;
      }
      Spawn(task);
      return true;
    }

    method StartTask(task: Option<Task>) returns (ok: bool)
      requires Valid()
      modifies this, taskReady
      ensures !old(exiting) ==> Valid()
      ensures ok == task.Some?
      ensures View() == if task.Some? then PoolState.StartTask(old(View()), task.value) else old(View())
    {
      if task.None? {
        return false;
      }
      CallSound(View(), Start(task.value));
      accepted := accepted + multiset{task.value};
      var started := TryStart(task.value);
      if !started {
        Enqueue(task.value);
      }
      return true;
    }

    /** `choked` is what the unlocked look at the counters said. */
    method StartTaskNow(task: Option<Task>, choked: bool) returns (ok: bool)
      requires Valid()
      modifies this, taskReady
      ensures !old(exiting) ==> Valid()
      ensures ok == (task.Some? && !choked && CanStart(old(View())))
      ensures View() == if task.Some? then PoolState.StartTaskNow(old(View()), task.value, choked) else old(View())
    {
      if task.None? {
        return false;
      }
      CallSound(View(), StartNow(task.value, choked));
      if choked {
        return false;
      }
      ghost var before := View();
      ok := TryStart(task.value);
      if ok {
        accepted := accepted + multiset{task.value};
        AcceptLater(before, task.value);
      }
    }

    /** `top` is the top of the queue, if there is one. */
    method ReserveThreads(count: nat, top: Task)
      requires Valid() && TopOf(View(), top)
      modifies this, taskReady
      ensures !old(exiting) ==> Valid()
      ensures View() == PoolState.ReserveThreads(old(View()), count, top)
    {
      hide Sound, Frame, Place, CanStart;
      CallSound(View(), Reserve(count, top));
      ghost var before := View();
      ReservedView(before, count, top);
      var startTask := count < res;
      res := if count > maxThreads then maxThreads else count;
      if startTask && queue != multiset{} {
        queue := queue - multiset{top};
        var started := TryStart(top);
        if !started {
          queue := queue + multiset{top};
          assert queue == before.queue;
        }
      }
    }

    /** The worker picks the first task of the queue. */
    method TakeTop(w: nat, top: Task)
      requires w < |workers|
      modifies this
      ensures View() == Fetch(old(View()), w, top)
    {
      workers := workers[w := Worker(Running, Some(top))];
      queue := queue - multiset{top};
    }

    /** The rest of the worker's round when it holds the mutex and has no task. */
    method IdleOrLeave(w: nat)
      requires w < |workers|
      modifies this, taskReady
      ensures View() == Park(old(View()), w)
    {
      if exiting {
        pol := Dec32(pol);
        workers := workers[w := Worker(Exited, None)];
        return;
      }
      var expired := IsOverworking();
      if !expired {
        idl := Inc32(idl);
        pol := Dec32(pol);
        workers := workers[w := Worker(Waiting, None)];
        taskReady.EnterWait(w);
        return;
      }
      ret := ret + [w];
      pol := Dec32(pol);
      workers := workers[w := Worker(Retired, None)];
    }

    /** The worker has executed its task and locked the mutex again. */
    method TaskReturned(w: nat, top: Task)
      requires Valid() && Enabled(View(), Finish(w, top))
      modifies this, taskReady
      ensures Valid()
      ensures View() == Step(old(View()), Finish(w, top))
    {
      hide Sound, Frame, Park, Fetch, PoolState.Overworking;
      StepSound(View(), Finish(w, top));
      ghost var before := View();
      TaskInSlot(before, w);
      var task := workers[w].slot.value;
      done := done + multiset{task};
      workers := workers[w := Worker(Running, None)];
      ghost var s1 := Done(before, w);
      assert View() == SetWorker(s1, w, Running, None);
      SlotForgotten(s1, w, Worker(Running, None), top);
      if !IsOverworking() && queue != multiset{} {
        TakeTop(w, top);
        return;
      }
      IdleOrLeave(w);
    }

    /** A waiting worker comes out of `pthread_cond_wait`, mutex still open. */
    method CameOut(w: nat, late: bool)
      requires Valid() && InMode(View(), w, Waiting)
      modifies this, taskReady
      ensures Valid()
      ensures View() == if late then Step(old(View()), TimeOut(w))
                        else if old(View()).wakeups > 0 then Step(old(View()), Wake(w))
                        else old(View())
    {
      LeaveSound(View(), w);
      var left, success := taskReady.ReturnFromWait(w, late);
      if left {
        workers := workers[w := Worker(Woken(!success), None)];
      }
    }

    /** The worker that left the condition has the mutex again. */
    method WaitReturned(w: nat, top: Task)
      requires Valid() && Enabled(View(), Relock(w, top))
      modifies this, taskReady
      ensures Valid()
      ensures View() == Step(old(View()), Relock(w, top))
    {
      hide Sound, Frame, Park, Fetch;
      StepSound(View(), Relock(w, top));
      var expired := workers[w].mode.late;
      assert workers[w].mode == Woken(expired);
      pol := Inc32(pol);
      if expired {
        idl := Dec32(idl);
        ret := ret + [w];
        pol := Dec32(pol);
        workers := workers[w := Worker(Retired, None)];
        return;
      }
      if queue != multiset{} {
        TakeTop(w, top);
        return;
      }
      IdleOrLeave(w);
    }

    /** `wait()` up to the point where it opens the mutex to join the threads. */
    method WaitStarts()
      requires Valid() && !exiting
      modifies this, taskReady
      ensures Valid()
      ensures View() == Step(old(View()), WaitBegin)
    {
      StepSound(View(), WaitBegin);
      exiting := true;
      taskReady.SignalAll();
      all := [];
    }

    /** `wait()` after every thread was joined and deleted. */
    method WaitEnds()
      requires Valid() && exiting && Settled(View())
      modifies this
      ensures Valid()
      ensures View() == Step(old(View()), WaitEnd)
    {
      StepSound(View(), WaitEnd);
      workers := [];
      ret := [];
      pol := 0;
      idl := 0;
      exiting := false;
    }

    /** One event: the method that does its step. */
    method Perform(e: Event)
      requires Valid() && Enabled(View(), e)
      modifies this, taskReady
      ensures Valid()
      ensures View() == Step(old(View()), e)
    {
      hide Sound, Step, PoolState.StartTask, PoolState.StartTaskNow, PoolState.ReserveThreads;
      CallSound(View(), e);
      var ok;
      match e {
        case Start(task) => ok := StartTask(Some(task));
        case StartNow(task, choked) => ok := StartTaskNow(Some(task), choked);
        case Reserve(count, top) => ReserveThreads(count, top);
        case Finish(w, top) => TaskReturned(w, top);
        case Wake(w) => CameOut(w, false);
        case TimeOut(w) => CameOut(w, true);
        case Relock(w, top) => WaitReturned(w, top);
        case WaitBegin => WaitStarts();
        case WaitEnd => WaitEnds();
      }
    }

    /** Any run: the pool ends where the state machine does. */
    method Replay(run: seq<Event>)
      requires Valid() && Legal(View(), run)
      modifies this, taskReady
      ensures Valid()
      ensures View() == Exec(old(View()), run)
      decreases |run|
    {
      hide Sound, Step, Enabled, Legal, Exec;
      if run == [] {
        NoEvents(View());
        return;
      }
      First(View(), run);
      Perform(run[0]);
      Replay(run[1..]);
    }
  }

  /** What a call does to the pool, `wait()` or not; between waits it keeps the pool sound. */
  lemma CallSound(s: Pool, e: Event)
    requires Sound(s) && (e.Reserve? ==> TopOf(s, e.top))
    ensures !s.exiting && e.Start? ==>
              && Step(s, e) == PoolState.StartTask(s, e.task)
              && Sound(PoolState.StartTask(s, e.task))
    ensures !s.exiting && e.StartNow? ==>
              && Step(s, e) == PoolState.StartTaskNow(s, e.task, e.choked)
              && Sound(PoolState.StartTaskNow(s, e.task, e.choked))
    ensures !s.exiting && e.Reserve? ==>
              && Step(s, e) == PoolState.ReserveThreads(s, e.count, e.top)
              && Sound(PoolState.ReserveThreads(s, e.count, e.top))
  {
    hide Sound, PoolState.StartTask, PoolState.StartTaskNow, PoolState.ReserveThreads;
    if !s.exiting && (e.Start? || e.StartNow? || e.Reserve?) {
      StepSound(s, e);
    }
  }

  /** What the slot held before does not matter to the next worker that is put there. */
  lemma SlotForgotten(s: Pool, w: nat, middle: Worker, top: Task)
    requires w < |s.workers|
    ensures var s1 := s.(workers := s.workers[w := middle]);
            && Park(s1, w) == Park(s, w) && Fetch(s1, w, top) == Fetch(s, w, top)
            && Overworking(s1) == Overworking(s)
  {
    assert s.workers[w := middle][w := Parked(s)] == s.workers[w := Parked(s)];
    assert s.workers[w := middle][w := Worker(Running, Some(top))] == s.workers[w := Worker(Running, Some(top))];
  }

  lemma TaskInSlot(s: Pool, w: nat)
    requires Sound(s) && InMode(s, w, Running)
    ensures s.workers[w].slot.Some?
  {
  }

  /** What `reserve` needs to know before it may try to start a task. */
  lemma ReservedView(s: Pool, count: nat, top: Task)
    requires Sound(s) && TopOf(s, top)
    ensures s.ret != [] ==> s.ret[|s.ret| - 1] < |s.workers|
    ensures var s1 := SetReserved(s, count); CanStart(s1.(queue := s1.queue - multiset{top})) == CanStart(s1)
  {
  }

  /** The history may note a task before or after it was placed. */
  lemma AcceptLater(s: Pool, t: Task)
    requires s.ret != [] ==> s.ret[|s.ret| - 1] < |s.workers|
    ensures CanStart(s) == CanStart(Accept(s, t))
    ensures Accept(Place(s, t), t) == Place(Accept(s, t), t)
  {
  }
}
