/**
 What a caller gets from the pool between waits, as long as its idle counter is
 right: a task has a worker at once exactly when there is room, and threads that
 are reserved are given up by the workers as they come back.
 */
module PoolService {
  import opened Base
  import opened PoolState
  import opened PoolProgress
  import opened PoolAccounts

  /** Workers with a task, or on the way to one. */
  function Busy(s: Pool): nat {
    Count(s.workers, Running) + s.wakeups + Count(s.workers, Woken(false))
  }

  /** Threads that are in use, by the pool or by whoever reserved them. */
  function Load(s: Pool): nat {
    s.res + Busy(s)
  }

  lemma LoadDecides(s: Pool)
    requires Sound(s) && Accounted(s)
    ensures CanStart(s) <==> Load(s) < s.maxThreads
    ensures Overworking(s) <==> Load(s) > s.maxThreads
  {
    ActiveIsExact(s);
  }

  /** `s` and `r` differ in the history and in what a call may change. */
  predicate SameRest(s: Pool, r: Pool) {
    && r.maxThreads == s.maxThreads && r.exiting == s.exiting && r.done == s.done && r.waiters == s.waiters
  }

  /** The task has a worker: a signalled idle one, else the last one that retired, else a new one. */
  predicate HasWorker(s: Pool, t: Task, r: Pool) {
    && SameRest(s, r) && r.res == s.res
    && Busy(r) == Busy(s) + 1
    && (s.idl > 0 ==> r.workers == s.workers && r.ret == s.ret && r.queue == s.queue + multiset{t})
    && (s.idl == 0 ==> r.queue == s.queue && r.idl == 0)
    && (s.idl == 0 && s.ret != [] ==>
          var last := |s.ret| - 1;
          && s.ret[last] < |s.workers| && r.ret == s.ret[..last]
          && r.workers == s.workers[s.ret[last] := Worker(Running, Some(t))])
    && (s.idl == 0 && s.ret == [] ==> r.ret == [] && r.workers == s.workers + [Worker(Running, Some(t))])
  }

  lemma PlacedHasWorker(s: Pool, t: Task)
    requires Frame(s) && Accounted(s) && BookedSignalLands(s)
    requires s.ret != [] ==> s.ret[|s.ret| - 1] < |s.workers|
    ensures HasWorker(s, t, Place(s, t))
  {
    if s.idl > 0 {
      CountTotal(s.workers);
    } else if s.ret != [] {
      var w := s.ret[|s.ret| - 1];
      assert w in s.ret;
      Moved(s, w, Worker(Running, Some(t)));
    } else {
      AppendWorker(s.workers, Worker(Running, Some(t)));
    }
  }

  /** With room in the pool, a task that is started has a worker, and one more worker is busy. */
  lemma StartTakesRoom(s: Pool, t: Task)
    requires Sound(s) && Accounted(s) && BookedSignalLands(s) && Load(s) < s.maxThreads
    ensures HasWorker(s, t, StartTask(s, t)) && StartTask(s, t).accepted == s.accepted + multiset{t}
    ensures HasWorker(s, t, StartTaskNow(s, t, false)) && StartTaskNow(s, t, false) == StartTask(s, t)
  {
    LoadDecides(s);
    PlacedHasWorker(Accept(s, t), t);
  }

  /** Without room, `start` leaves the task in the queue and `start_now` does nothing. */
  lemma StartWaitsItsTurn(s: Pool, t: Task, choked: bool)
    requires Sound(s) && Accounted(s) && Load(s) >= s.maxThreads
    ensures StartTask(s, t) == s.(queue := s.queue + multiset{t}, accepted := s.accepted + multiset{t},
                                  wakeups := if s.wakeups < s.waiters then s.wakeups + 1 else s.wakeups)
    ensures StartTaskNow(s, t, choked) == s
  {
    LoadDecides(s);
    OneMoreSignal(s);
    hide Sound, Accounted, Load;
  }

  lemma OneMoreSignal(s: Pool)
    requires Sound(s) && Accounted(s)
    ensures Min(Inc32(s.wakeups), s.waiters) == if s.wakeups < s.waiters then s.wakeups + 1 else s.wakeups
  {
    CountTotal(s.workers);
  }

  function Starts(tasks: seq<Task>): (run: seq<Event>)
    ensures |run| == |tasks|
  {
    if tasks == [] then [] else [Start(tasks[0])] + Starts(tasks[1..])
  }

  /** Nobody waits, and nobody is on the way out of the condition late. */
  predicate NobodyIdle(s: Pool) {
    s.waiters == 0 && s.idl == 0
  }

  lemma NobodySignalled(s: Pool, t: Task)
    requires Sound(s) && Accounted(s) && NobodyIdle(s)
    ensures BookedSignalLands(s) && Careful(s, Start(t)) && Enabled(s, Start(t)) && s.wakeups == 0
    ensures Step(s, Start(t)) == StartTask(s, t)
  {
  }

  lemma StartWithRoom(s: Pool, t: Task, r: Pool)
    requires NobodyIdle(s) && HasWorker(s, t, r)
    ensures NobodyIdle(r) && r.maxThreads == s.maxThreads && Load(r) == Load(s) + 1 && r.queue == s.queue
  {
    hide Busy;
  }

  lemma OneStart(s: Pool, t: Task)
    requires Sound(s) && Accounted(s) && NobodyIdle(s) && Load(s) <= s.maxThreads
    requires Enabled(s, Start(t))
    ensures var r := Step(s, Start(t));
            && Sound(r) && Accounted(r) && NobodyIdle(r) && r.maxThreads == s.maxThreads
            && Load(r) == Min(Load(s) + 1, s.maxThreads)
            && |r.queue| == |s.queue| + (Load(s) + 1 - Load(r))
  {
    hide Sound, Accounted, Load, Step, StartTask, HasWorker, BookedSignalLands, Careful;
    StepSound(s, Start(t));
    NobodySignalled(s, t);
    BooksKeptExactlyWhenCareful(s, Start(t));
    if Load(s) < s.maxThreads {
      StartTakesRoom(s, t);
      StartWithRoom(s, t, StartTask(s, t));
    } else {
      StartWaitsItsTurn(s, t, false);
      QueuedLoad(s, StartTask(s, t));
    }
  }

  lemma QueuedLoad(s: Pool, r: Pool)
    requires r.res == s.res && r.workers == s.workers && r.wakeups == s.wakeups
    ensures Load(r) == Load(s)
  {
  }

  /** Tasks that are started one after another fill the pool with workers, and only then the queue. */
  lemma {:induction false} StartsFillThePool(s: Pool, tasks: seq<Task>)
    requires Sound(s) && Accounted(s) && NobodyIdle(s) && Load(s) <= s.maxThreads
    ensures Legal(s, Starts(tasks))
    ensures var r := Exec(s, Starts(tasks));
            && Load(r) == Min(Load(s) + |tasks|, s.maxThreads)
            && |r.queue| == |s.queue| + (Load(s) + |tasks| - Load(r))
    decreases |tasks|
  {
    hide Sound, Accounted, NobodyIdle, Load, Step, Legal, Exec;
    if tasks == [] {
      NoEvents(s);
    } else {
      MayStart(s, tasks[0]);
      OneStart(s, tasks[0]);
      var s1 := Step(s, Start(tasks[0]));
      StartsFillThePool(s1, tasks[1..]);
      Before(s, Start(tasks[0]), s1, Starts(tasks[1..]), Exec(s1, Starts(tasks[1..])));
    }
  }

  lemma MayStart(s: Pool, t: Task)
    requires Accounted(s)
    ensures Enabled(s, Start(t))
  {
  }

  /** A smaller reservation that makes room gives a queued task a worker, and nothing else moves. */
  lemma ReserveMakesRoom(s: Pool, count: nat, top: Task)
    requires Sound(s) && Accounted(s) && TopOf(s, top)
    ensures var r, held := ReserveThreads(s, count, top), Min(count, s.maxThreads);
            && r.res == held && SameRest(s, r) && r.accepted == s.accepted
            && (if count < s.res && s.queue != multiset{} && held + Busy(s) < s.maxThreads then
                  BookedSignalLands(s) ==> HasWorker(s.(res := held, queue := s.queue - multiset{top}), top, r)
                else r == s.(res := held))
  {
    var s1 := SetReserved(s, count);
    ReservedStays(s, count);
    LoadDecides(s1);
    if count < s.res && s.queue != multiset{} && CanStart(s1) {
      var s2 := s1.(queue := s1.queue - multiset{top});
      TakeInHand(s1, top);
      PlacedRest(s2, top);
      if BookedSignalLands(s) {
        PlacedHasWorker(s2, top);
      }
    }
  }

  lemma ReservedStays(s: Pool, count: nat)
    requires Sound(s) && Accounted(s)
    ensures Sound(SetReserved(s, count)) && Accounted(SetReserved(s, count))
    ensures SetReserved(s, count) == s.(res := Min(count, s.maxThreads))
  {
  }

  lemma PlacedRest(s: Pool, t: Task)
    requires s.ret != [] ==> s.ret[|s.ret| - 1] < |s.workers|
    ensures SameRest(s, Place(s, t)) && Place(s, t).res == s.res && Place(s, t).accepted == s.accepted
  {
  }

  // ---------------------------------------------------------------------
  // Workers

  /** A worker that leaves for good, and one that goes to sleep. */
  predicate Left(s: Pool, w: nat, r: Pool) {
    && InMode(r, w, Retired) && r.queue == s.queue && r.ret == s.ret + [w] && r.idl == s.idl
  }

  predicate FellAsleep(s: Pool, w: nat, r: Pool) {
    && InMode(r, w, Waiting) && r.queue == s.queue && r.ret == s.ret
    && r.idl == s.idl + 1 && r.waiters == s.waiters + 1
  }

  predicate TookTask(s: Pool, w: nat, top: Task, r: Pool) {
    && w < |r.workers| && r.workers[w] == Worker(Running, Some(top))
    && r.queue == s.queue - multiset{top} && r.ret == s.ret && r.idl == s.idl
  }

  lemma FetchedBusy(s: Pool, s1: Pool, w: nat, top: Task)
    requires InHand(s, w) && s1 == s.(pol := s1.pol, done := s1.done)
    ensures TookTask(s, w, top, Fetch(s1, w, top)) && Busy(Fetch(s1, w, top)) == Busy(s)
  {
    Moved(s, w, Worker(Running, Some(top)));
    FetchFrame(s, s1, w, top);
  }

  lemma ParkedBusy(s: Pool, s1: Pool, w: nat)
    requires Sound(s) && Accounted(s) && InHand(s, w) && s1 == s.(pol := s1.pol, done := s1.done)
    ensures var r := Park(s1, w);
            && Busy(r) == Busy(s) - 1
            && (if Load(s) > s.maxThreads then Left(s, w, r) else FellAsleep(s, w, r))
  {
    LoadDecides(s);
    CountTotal(s.workers);
    Moved(s, w, Parked(s1));
    assert Overworking(s1) == Overworking(s);
  }

  /**
   A worker comes back from its task.  If more threads are in use than there
   may be, it retires whatever is queued; otherwise it takes the next task, and
   goes to sleep only when there is none.
   */
  lemma FinishOutcome(s: Pool, w: nat, top: Task)
    requires Sound(s) && Accounted(s) && Enabled(s, Finish(w, top))
    ensures var r := FinishTask(s, w, top);
            && s.workers[w].slot.Some? && r.done == s.done + multiset{s.workers[w].slot.value} && r.res == s.res
            && (if Load(s) > s.maxThreads then Left(s, w, r)
                else if s.queue != multiset{} then TookTask(s, w, top, r)
                else FellAsleep(s, w, r))
            && Busy(r) == Busy(s) - if Load(s) <= s.maxThreads && s.queue != multiset{} then 0 else 1
  {
    LoadDecides(s);
    assert InHand(s, w);
    var s1 := Done(s, w);
    assert Overworking(s1) == Overworking(s);
    FetchedBusy(s, s1, w, top);
    ParkedBusy(s, s1, w);
  }

  lemma LateOutcome(s: Pool, w: nat, top: Task)
    requires Sound(s) && Accounted(s) && InMode(s, w, Woken(true))
    ensures var r := RelockWorker(s, w, top);
            InMode(r, w, Retired) && r.queue == s.queue && r.idl == s.idl - 1 && Busy(r) == Busy(s)
  {
    CountMember(s.workers, w);
    Moved(s, w, Worker(Retired, None));
  }

  /**
   A worker has the pool mutex again after waiting.  If it was late it retires;
   if it was woken it takes a task, even if too many threads are in use.
   */
  lemma RelockOutcome(s: Pool, w: nat, top: Task)
    requires Sound(s) && Accounted(s) && Enabled(s, Relock(w, top))
    ensures var r := RelockWorker(s, w, top);
            && r.done == s.done && r.res == s.res
            && (if InMode(s, w, Woken(true)) then
                  InMode(r, w, Retired) && r.queue == s.queue && r.idl == s.idl - 1 && Busy(r) == Busy(s)
                else if s.queue != multiset{} then TookTask(s, w, top, r) && Busy(r) == Busy(s)
                else (if Load(s) > s.maxThreads then Left(s, w, r) else FellAsleep(s, w, r)) && Busy(r) == Busy(s) - 1)
  {
    hide Sound, Accounted, Busy, TookTask, Left, FellAsleep, Overworking;
    if InMode(s, w, Woken(true)) {
      LateOutcome(s, w, top);
    } else {
      var s1 := s.(pol := Inc32(s.pol));
      FetchedBusy(s, s1, w, top);
      ParkedBusy(s, s1, w);
    }
  }

  /** During `wait()` a worker without a task returns from `run` and is not listed as retired. */
  predicate Exits(s: Pool, w: nat, r: Pool) {
    InMode(r, w, Exited) && r.queue == s.queue && r.ret == s.ret
  }

  lemma ExitingFinishes(s: Pool, w: nat, top: Task)
    requires Sound(s) && s.exiting && Enabled(s, Finish(w, top))
    ensures var r := FinishTask(s, w, top);
            if Overworking(s) || s.queue == multiset{} then Exits(s, w, r) else TookTask(s, w, top, r)
  {
    var s1 := Done(s, w);
    assert Overworking(s1) == Overworking(s);
    hide Sound, Overworking;
    FetchFrame(s, s1, w, top);
  }

  lemma ExitingRelocks(s: Pool, w: nat, top: Task)
    requires Sound(s) && s.exiting && Enabled(s, Relock(w, top)) && InMode(s, w, Woken(false))
    ensures var r := RelockWorker(s, w, top);
            if s.queue == multiset{} then Exits(s, w, r) else TookTask(s, w, top, r)
  {
    hide Sound, Overworking;
  }

  // ---------------------------------------------------------------------
  // Reserved threads are given up

  lemma LeftBusy(s: Pool, w: nat)
    requires Sound(s) && Accounted(s) && InMode(s, w, Waiting)
    ensures s.wakeups > 0 ==> Busy(WakeWorker(s, w)) == Busy(s)
    ensures Busy(ExpireWorker(s, w)) == Busy(s)
  {
    Moved(s, w, Worker(Woken(false), None));
    Moved(s, w, Worker(Woken(true), None));
  }

  lemma WorkersUnload(s: Pool, e: Event)
    requires Sound(s) && Accounted(s) && Enabled(s, e) && WorkerEvent(e)
    ensures Load(Step(s, e)) <= Load(s)
    ensures e.Finish? && Load(s) > s.maxThreads ==> Load(Step(s, e)) == Load(s) - 1
  {
    hide Sound, Accounted, Busy, FinishTask, RelockWorker;
    match e
    case Finish(w, top) => FinishOutcome(s, w, top);
    case Relock(w, top) => RelockOutcome(s, w, top);
    case Wake(w) => LeftBusy(s, w);
    case TimeOut(w) => LeftBusy(s, w);
  }

  /** How many tasks come to their end in a run. */
  function Finishes(run: seq<Event>): nat {
    if run == [] then 0 else (if run[0].Finish? then 1 else 0) + Finishes(run[1..])
  }

  lemma FirstIsCareful(s: Pool, run: seq<Event>)
    requires Sound(s) && CarefulRun(s, run) && run != []
    ensures CallOrWorkerStep(run[0]) && Enabled(s, run[0]) && Careful(s, run[0])
    ensures Sound(Step(s, run[0])) && CarefulRun(Step(s, run[0]), run[1..])
  {
    hide Sound, Enabled, Careful, Step;
    StepSound(s, run[0]);
  }

  /**
   Workers never raise the load, and as long as it is too high every task that
   ends lowers it: after as many ends as there are threads too many, it is not.
   */
  lemma {:induction false} OverworkEnds(s: Pool, run: seq<Event>)
    requires Sound(s) && Accounted(s) && CarefulRun(s, run) && WorkerRun(run)
    ensures Legal(s, run) && Load(Exec(s, run)) <= Load(s)
    ensures Load(Exec(s, run)) <= s.maxThreads || Load(Exec(s, run)) + Finishes(run) <= Load(s)
    decreases run
  {
    hide Sound, Accounted, Load, Step, Enabled, Careful, CarefulRun, Legal, Exec;
    if run == [] {
      NoEvents(s);
    } else {
      FirstIsCareful(s, run);
      var s1 := Step(s, run[0]);
      BooksKeptExactlyWhenCareful(s, run[0]);
      assert WorkerEvent(run[0]);
      WorkersUnload(s, run[0]);
      StepKeepsShell(s, run[0]);
      OverworkEnds(s1, run[1..]);
      Before(s, run[0], s1, run[1..], Exec(s1, run[1..]));
      assert run == [run[0]] + run[1..];
    }
  }

  /** Where no worker can go on by itself, only reserved threads are in use. */
  lemma AtRestOnlyReserved(s: Pool)
    requires Sound(s) && Accounted(s) && forall e :: !Ready(s, e)
    ensures Load(s) == s.res <= s.maxThreads
  {
    var top := SomeTop(s);
    if Count(s.workers, Running) > 0 {
      var w := FindMode(s.workers, Running);
      assert Ready(s, Finish(w, top));
    }
    if Count(s.workers, Woken(false)) > 0 {
      var w := FindMode(s.workers, Woken(false));
      assert Ready(s, Relock(w, top));
    }
    if s.wakeups > 0 {
      var w := FindMode(s.workers, Waiting);
      assert Ready(s, Wake(w));
    }
  }
}
