/**
 When the idle counter can be trusted.  `try_start` takes an idle worker off the
 books before that worker has woken, so the counter is right only if every
 signal that was booked reaches a worker and every signal that reaches a worker
 was booked.
 */
module PoolAccounts {
  import opened Base
  import opened PoolState

  /** `idl_threads_` counts the waiting workers without a signal and those that timed out. */
  predicate Accounted(s: Pool) {
    && !s.exiting
    && s.wakeups <= s.waiters
    && s.idl == s.waiters - s.wakeups + Count(s.workers, Woken(true))
  }

  /** A booked signal finds a worker that can take it. */
  predicate BookedSignalLands(s: Pool) {
    s.idl > 0 ==> s.wakeups < s.waiters
  }

  /** The branch conditions under which a step leaves the books right. */
  predicate Careful(s: Pool, e: Event) {
    match e
    case Start(_) => if CanStart(s) then BookedSignalLands(s) else s.wakeups == s.waiters
    case StartNow(_, choked) => !choked && CanStart(s) ==> BookedSignalLands(s)
    case Reserve(count, _) =>
      count < s.res && s.queue != multiset{} && CanStart(SetReserved(s, count)) ==> BookedSignalLands(s)
    case TimeOut(_) => s.wakeups < s.waiters
    case _ => true
  }

  predicate CallOrWorkerStep(e: Event) {
    !e.WaitBegin? && !e.WaitEnd?
  }

  lemma EnqueueBooked(s: Pool, t: Task)
    requires Frame(s) && Accounted(s) && s.idl > 0
    ensures Accounted(Enqueue(s.(idl := s.idl - 1), t)) <==> BookedSignalLands(s)
  {
    CountTotal(s.workers);
  }

  lemma EnqueueUnbooked(s: Pool, t: Task)
    requires Frame(s) && Accounted(s)
    ensures Accounted(Enqueue(s, t)) <==> s.wakeups == s.waiters
  {
    CountTotal(s.workers);
  }

  lemma PlaceBooked(s: Pool, t: Task)
    requires Frame(s) && Accounted(s)
    requires s.ret != [] ==> s.ret[|s.ret| - 1] < |s.workers|
    ensures Accounted(Place(s, t)) <==> BookedSignalLands(s)
  {
    if s.idl > 0 {
      EnqueueBooked(s, t);
    } else if s.ret != [] {
      var w := s.ret[|s.ret| - 1];
      assert w in s.ret;
      CountUpdate(s.workers, w, Worker(Running, Some(t)), Woken(true));
    } else {
      AppendWorker(s.workers, Worker(Running, Some(t)));
    }
  }

  lemma ParkBooked(s: Pool, w: nat, m: Mode)
    requires w < |s.workers| && s.workers[w].mode == m && m != Woken(true)
    requires s.waiters + 1 < TWO32 && s.idl + 1 < TWO32 && Accounted(s)
    ensures Accounted(Park(s, w))
  {
    CountUpdate(s.workers, w, Parked(s), Woken(true));
  }

  lemma WorkerStepBooked(s: Pool, e: Event)
    requires Sound(s) && Accounted(s) && Enabled(s, e)
    requires e.Finish? || e.Wake? || e.Relock?
    ensures Accounted(Step(s, e))
  {
    CountTotal(s.workers);
    CountMember(s.workers, e.w);
    var m := s.workers[e.w].mode;
    match e
    case Finish(w, top) =>
      var s1 := Done(s, w);
      CountUpdate(s.workers, w, Worker(Running, Some(top)), Woken(true));
      if Overworking(s1) || s1.queue == multiset{} {
        ParkBooked(s1, w, m);
      }
    case Wake(w) =>
      CountUpdate(s.workers, w, Worker(Woken(false), None), Woken(true));
    case Relock(w, top) =>
      var s1 := s.(pol := Inc32(s.pol));
      CountUpdate(s.workers, w, Worker(Retired, None), Woken(true));
      CountUpdate(s.workers, w, Worker(Running, Some(top)), Woken(true));
      if m != Woken(true) && s1.queue == multiset{} {
        ParkBooked(s1, w, m);
      }
  }

  lemma TimeOutBooked(s: Pool, w: nat)
    requires Sound(s) && Accounted(s) && InMode(s, w, Waiting)
    ensures Accounted(ExpireWorker(s, w)) <==> s.wakeups < s.waiters
  {
    CountTotal(s.workers);
    CountMember(s.workers, w);
    CountUpdate(s.workers, w, Worker(Woken(true), None), Woken(true));
  }

  lemma StartBooked(s: Pool, t: Task, choked: bool)
    requires Sound(s) && Accounted(s)
    ensures Accounted(StartTask(s, t)) <==> Careful(s, Start(t))
    ensures Accounted(StartTaskNow(s, t, choked)) <==> Careful(s, StartNow(t, choked))
  {
    var s1 := Accept(s, t);
    if CanStart(s) {
      PlaceBooked(s1, t);
    } else {
      EnqueueUnbooked(s1, t);
    }
  }

  lemma ReserveBooked(s: Pool, count: nat, top: Task)
    requires Sound(s) && Accounted(s) && Enabled(s, Reserve(count, top))
    ensures Accounted(ReserveThreads(s, count, top)) <==> Careful(s, Reserve(count, top))
  {
    var s1 := SetReserved(s, count);
    if count < s.res && s.queue != multiset{} && CanStart(s1) {
      PlaceBooked(s1.(queue := s1.queue - multiset{top}), top);
    }
  }

  /**
   With reservations, timeouts and every order of steps: a step leaves the idle
   counter right exactly when the guard of the branch it takes is met.
   */
  lemma BooksKeptExactlyWhenCareful(s: Pool, e: Event)
    requires Sound(s) && Accounted(s) && Enabled(s, e) && CallOrWorkerStep(e)
    ensures Accounted(Step(s, e)) <==> Careful(s, e)
  {
    hide Sound, Accounted, StartTask, StartTaskNow, ReserveThreads;
    match e
    case Start(t) => StartBooked(s, t, false);
    case StartNow(t, choked) => StartBooked(s, t, choked);
    case Reserve(count, top) => ReserveBooked(s, count, top);
    case Finish(_, _) => WorkerStepBooked(s, e);
    case Wake(_) => WorkerStepBooked(s, e);
    case TimeOut(w) => TimeOutBooked(s, w);
    case Relock(_, _) => WorkerStepBooked(s, e);
  }

  /**
   The other counters never underflow, in any sound state; the idle counter does
   not as long as it is right.
   */
  lemma NoCounterUnderflows(s: Pool, e: Event)
    requires Sound(s) && Enabled(s, e)
    ensures e.Finish? ==> s.pol > 0
    ensures e.Wake? ==> s.waiters > 0 && s.wakeups > 0
    ensures e.TimeOut? ==> s.waiters > 0
    ensures Accounted(s) && e.Relock? && InMode(s, e.w, Woken(true)) ==> s.idl > 0
  {
    if e.Finish? || e.Wake? || e.TimeOut? || e.Relock? {
      CountMember(s.workers, e.w);
    }
  }

  /** Every step of the run was careful. */
  ghost predicate CarefulRun(s: Pool, run: seq<Event>)
    requires Sound(s)
    decreases run
  {
    run == [] ||
    (&& CallOrWorkerStep(run[0]) && Enabled(s, run[0]) && Careful(s, run[0])
     && (StepSound(s, run[0]); CarefulRun(Step(s, run[0]), run[1..])))
  }

  /** `active_threads()` while the books are right: no wrap-around, and nothing counted twice. */
  lemma ActiveIsExact(s: Pool)
    requires Sound(s) && Accounted(s)
    ensures Active(s) == s.res + Count(s.workers, Running) + s.wakeups + Count(s.workers, Woken(false))
    ensures Active(s) <= s.res + |s.workers|
  {
    CountTotal(s.workers);
  }

  /** A careful run never lets a counter underflow, whatever was reserved and whoever timed out. */
  lemma {:induction false} CarefulRunsKeepTheBooks(s: Pool, run: seq<Event>)
    requires Sound(s) && Accounted(s) && CarefulRun(s, run)
    ensures Legal(s, run)
    ensures Accounted(Exec(s, run))
    ensures Active(Exec(s, run)) <= Exec(s, run).res + |Exec(s, run).workers|
    decreases run
  {
    if run == [] {
      ActiveIsExact(s);
    } else {
      hide Sound, Accounted, Step, Enabled, Careful;
      StepSound(s, run[0]);
      BooksKeptExactlyWhenCareful(s, run[0]);
      CarefulRunsKeepTheBooks(Step(s, run[0]), run[1..]);
    }
  }
}
