/**
 When `wait()` keeps its promise.  While the pool is exiting, the number behind
 `active_threads()` never changes, so it is decided at the call whether workers
 that come back from a task look for another one.
 */
module PoolWait {
  import opened Base
  import opened PoolState
  import opened PoolProgress

  /** What `overworking()` says throughout `wait()`, in wrapping 32-bit arithmetic. */
  predicate Shut(s: Pool) {
    (s.res - |s.ret| - s.idl) % TWO32 > s.maxThreads
  }

  /** Workers that will look at the queue once more; waiters among them if none times out. */
  function Helpers(s: Pool, timely: bool): nat {
    Count(s.workers, Woken(false)) + if timely then Count(s.workers, Waiting) else 0
  }

  /**
   Nothing is queued, or the workers can cope: if the pool is shut, every helper
   takes one task, and otherwise one worker takes them all.
   */
  predicate Copes(s: Pool, timely: bool) {
    || s.queue == multiset{}
    || (if Shut(s) then |s.queue| <= Helpers(s, timely)
        else Count(s.workers, Running) + Helpers(s, timely) > 0)
  }

  predicate Possible(e: Event, timely: bool) {
    WorkerEvent(e) && !(timely && e.TimeOut?)
  }

  /** The pool is exiting, and if nobody times out then everyone waiting has a signal. */
  predicate Leaving(s: Pool, timely: bool) {
    s.exiting && (timely ==> Called(s))
  }

  lemma ShutIsOverworking(s: Pool)
    requires Sound(s) && s.exiting
    ensures Overworking(s) <==> Shut(s)
  {
  }

  lemma WrapsAround(x: int)
    requires -2 * TWO32 < x < TWO32
    ensures x % TWO32 == if x >= 0 then x else if x + TWO32 >= 0 then x + TWO32 else x + 2 * TWO32
  {
  }

  /**
   The wrap-around of `active_threads()` in figures: without `all_threads_` it
   wraps as soon as more workers are booked as idle or retired than reserved.
   */
  lemma ShutMeans(s: Pool)
    requires Sound(s)
    ensures var d := s.idl + |s.ret| - s.res; Shut(s) <==> 0 < d < TWO32 - s.maxThreads || d > TWO32
  {
    CountTotal(s.workers);
    assert |s.ret| <= s.maxThreads;
    hide Sound;
    WrapsAround(s.res - |s.ret| - s.idl);
  }

  // ---------------------------------------------------------------------
  // What one step does to the condition

  lemma FetchedState(s: Pool, s1: Pool, w: nat, top: Task)
    requires InHand(s, w) && top in s.queue && s1 == s.(pol := s1.pol, done := s1.done)
    ensures var r := Fetch(s1, w, top);
            && |r.queue| == |s.queue| - 1 && Count(r.workers, Running) > 0 && (Shut(r) <==> Shut(s))
            && (forall timely :: Helpers(r, timely) == Helpers(s, timely) - if InMode(s, w, Running) then 0 else 1)
  {
    Moved(s, w, Worker(Running, Some(top)));
    FetchFrame(s, s1, w, top);
    CountMember(Fetch(s1, w, top).workers, w);
  }

  lemma ExitedState(s: Pool, s1: Pool, w: nat)
    requires InHand(s, w) && s.exiting && s1 == s.(pol := s1.pol, done := s1.done)
    ensures var r := Park(s1, w);
            && r.queue == s.queue && (Shut(r) <==> Shut(s))
            && Count(r.workers, Running) == Count(s.workers, Running) - (if InMode(s, w, Running) then 1 else 0)
            && (forall timely :: Helpers(r, timely) == Helpers(s, timely) - if InMode(s, w, Running) then 0 else 1)
  {
    Moved(s, w, Worker(Exited, None));
  }

  /** A worker comes back from its task. */
  lemma FinishedCopes(s: Pool, w: nat, top: Task, timely: bool)
    requires Sound(s) && s.exiting && Enabled(s, Finish(w, top))
    ensures Copes(s, timely) ==> Copes(FinishTask(s, w, top), timely)
    ensures Shut(s) && !Copes(s, timely) ==> !Copes(FinishTask(s, w, top), timely)
  {
    var s1 := Done(s, w);
    ShutIsOverworking(s);
    assert Overworking(s1) == Overworking(s);
    hide Sound, Shut, Overworking, Helpers, Count;
    if !Overworking(s1) && s1.queue != multiset{} {
      FetchedState(s, s1, w, top);
    } else {
      ExitedState(s, s1, w);
    }
  }

  lemma LateState(s: Pool, w: nat, top: Task)
    requires Sound(s) && InMode(s, w, Woken(true))
    ensures var r := RelockWorker(s, w, top);
            && r.queue == s.queue && (Shut(r) <==> Shut(s)) && Count(r.workers, Running) == Count(s.workers, Running)
            && (forall timely :: Helpers(r, timely) == Helpers(s, timely))
  {
    Moved(s, w, Worker(Retired, None));
  }

  /** A worker has the pool mutex again. */
  lemma RelockedCopes(s: Pool, w: nat, top: Task, timely: bool)
    requires Sound(s) && s.exiting && Enabled(s, Relock(w, top))
    ensures Copes(s, timely) ==> Copes(RelockWorker(s, w, top), timely)
    ensures Shut(s) || InMode(s, w, Woken(true)) ==>
              (!Copes(s, timely) ==> !Copes(RelockWorker(s, w, top), timely))
  {
    hide Sound, Shut, Helpers, Count;
    var s1 := s.(pol := Inc32(s.pol));
    if InMode(s, w, Woken(true)) {
      LateState(s, w, top);
    } else if s1.queue != multiset{} {
      FetchedState(s, s1, w, top);
    } else {
      ExitedState(s, s1, w);
    }
  }

  /** A waiter leaves the condition with a signal. */
  lemma WokenCopes(s: Pool, w: nat)
    requires Sound(s) && InMode(s, w, Waiting) && s.wakeups > 0
    ensures forall timely :: Copes(s, timely) ==> Copes(WakeWorker(s, w), timely)
    ensures Copes(WakeWorker(s, w), true) ==> Copes(s, true)
  {
    hide Sound;
    Moved(s, w, Worker(Woken(false), None));
  }

  /** A waiter leaves the condition late. */
  lemma ExpiredCopes(s: Pool, w: nat)
    requires Sound(s) && InMode(s, w, Waiting)
    ensures Copes(s, false) <==> Copes(ExpireWorker(s, w), false)
  {
    hide Sound;
    Moved(s, w, Worker(Woken(true), None));
  }

  lemma StepCopes(s: Pool, e: Event, timely: bool)
    requires Sound(s) && s.exiting && Enabled(s, e) && Possible(e, timely) && Copes(s, timely)
    ensures Copes(Step(s, e), timely)
  {
    hide Sound, Copes, FinishTask, RelockWorker, WakeWorker, ExpireWorker;
    match e
    case Finish(w, top) => FinishedCopes(s, w, top, timely);
    case Relock(w, top) => RelockedCopes(s, w, top, timely);
    case Wake(w) => WokenCopes(s, w);
    case TimeOut(w) => ExpiredCopes(s, w);
  }

  predicate PossibleRun(run: seq<Event>, timely: bool) {
    forall i :: 0 <= i < |run| ==> Possible(run[i], timely)
  }

  lemma StepStaysExiting(s: Pool, e: Event)
    requires Sound(s) && Enabled(s, e) && WorkerEvent(e)
    ensures Step(s, e).exiting == s.exiting
  {
    hide Sound, Step;
    StepKeepsShell(s, e);
  }

  lemma {:induction false} RunCopes(s: Pool, run: seq<Event>, timely: bool)
    requires Sound(s) && s.exiting && Legal(s, run) && PossibleRun(run, timely) && Copes(s, timely)
    ensures Copes(Exec(s, run), timely) && Exec(s, run).exiting
    decreases run
  {
    hide Sound, Copes, Step, Enabled, Legal, Exec, WorkerEvent;
    if run == [] {
      NoEvents(s);
    } else {
      First(s, run);
      assert Possible(run[0], timely);
      StepCopes(s, run[0], timely);
      StepStaysExiting(s, run[0]);
      RunCopes(Step(s, run[0]), run[1..], timely);
    }
  }

  // ---------------------------------------------------------------------
  // A schedule that leaves tasks behind

  /** Where the workers cannot cope, one of them can go on without helping. */
  lemma SomebodyFails(s: Pool, timely: bool) returns (e: Event)
    requires Sound(s) && Leaving(s, timely) && !Copes(s, timely) && !Settled(s)
    ensures Enabled(s, e) && Possible(e, timely)
    ensures e.Wake? ==> timely
    ensures e.Finish? ==> Shut(s)
    ensures e.Relock? ==> Shut(s) || InMode(s, e.w, Woken(true))
  {
    var w :| 0 <= w < |s.workers| && s.workers[w].mode != Retired && s.workers[w].mode != Exited;
    var top := SomeTop(s);
    Bounds(s, w);
    CountMember(s.workers, w);
    match s.workers[w].mode
    case Running => e := Finish(w, top);
    case Waiting => e := if timely then Wake(w) else TimeOut(w);
    case Woken(_) => e := Relock(w, top);
  }

  lemma StepFails(s: Pool, e: Event, timely: bool)
    requires Sound(s) && Leaving(s, timely) && !Copes(s, timely) && Enabled(s, e) && Possible(e, timely)
    requires e.Wake? ==> timely
    requires e.Finish? ==> Shut(s)
    requires e.Relock? ==> Shut(s) || InMode(s, e.w, Woken(true))
    ensures !Copes(Step(s, e), timely)
  {
    hide Sound, Copes, Shut, FinishTask, RelockWorker, WakeWorker, ExpireWorker;
    match e
    case Finish(w, top) => FinishedCopes(s, w, top, timely);
    case Relock(w, top) => RelockedCopes(s, w, top, timely);
    case Wake(w) => WokenCopes(s, w);
    case TimeOut(w) => ExpiredCopes(s, w);
  }

  lemma StillLeaving(s: Pool, e: Event, timely: bool)
    requires Sound(s) && Leaving(s, timely) && Enabled(s, e) && Possible(e, timely)
    ensures Leaving(Step(s, e), timely)
  {
    hide Sound, Called, Step;
    StepStaysExiting(s, e);
    if timely {
      StillCalled(s, e);
    }
  }

  lemma {:induction false} FailingRun(s: Pool, timely: bool) returns (run: seq<Event>)
    requires Sound(s) && Leaving(s, timely) && !Copes(s, timely)
    ensures Legal(s, run) && PossibleRun(run, timely)
    ensures Settled(Exec(s, run)) && !Copes(Exec(s, run), timely)
    decreases Measure(s)
  {
    hide Sound, Leaving, Copes, Settled, Shut, Step, Enabled, Measure, Legal, Exec, Possible;
    if Settled(s) {
      run := [];
      NoEvents(s);
    } else {
      var e := SomebodyFails(s, timely);
      var s1 := Step(s, e);
      StepSound(s, e);
      IsWorkerEvent(e, timely);
      WorkersDescend(s, e);
      StepFails(s, e, timely);
      StillLeaving(s, e, timely);
      var rest := FailingRun(s1, timely);
      Before(s, e, s1, rest, Exec(s1, rest));
      run := [e] + rest;
    }
  }

  lemma IsWorkerEvent(e: Event, timely: bool)
    requires Possible(e, timely)
    ensures WorkerEvent(e)
  {
  }

  // ---------------------------------------------------------------------
  // The promise

  /** Where all workers have returned, whatever is queued is all that was not done. */
  lemma SettledLedger(s: Pool)
    requires Sound(s) && Settled(s)
    ensures s.accepted == s.done <==> s.queue == multiset{}
    ensures forall timely :: Copes(s, timely) <==> s.queue == multiset{}
  {
    forall t: Task
      ensures s.accepted[t] == s.queue[t] + s.done[t]
    {
      NothingHeld(s.workers, t);
    }
    if s.accepted == s.done {
      forall t: Task
        ensures s.queue[t] == 0
      {
      }
    }
    forall m: Mode | m != Retired && m != Exited
      ensures Count(s.workers, m) == 0
    {
      if Count(s.workers, m) > 0 {
        var w := FindMode(s.workers, m);
      }
    }
  }

  /** However the workers are scheduled, every accepted task is done when they have all returned. */
  ghost predicate AlwaysDrains(s: Pool, timely: bool)
    requires Sound(s)
  {
    forall run: seq<Event> ::
      Legal(s, run) && PossibleRun(run, timely) && Settled(Exec(s, run)) ==> Exec(s, run).accepted == Exec(s, run).done
  }

  lemma DrainsExactly(s: Pool, timely: bool)
    requires Sound(s) && Leaving(s, timely)
    ensures AlwaysDrains(s, timely) <==> Copes(s, timely)
  {
    hide Sound, Copes, Settled, Legal, Exec, PossibleRun;
    if Copes(s, timely) {
      forall run: seq<Event> | Legal(s, run) && PossibleRun(run, timely) && Settled(Exec(s, run))
        ensures Exec(s, run).accepted == Exec(s, run).done
      {
        RunCopes(s, run, timely);
        SettledLedger(Exec(s, run));
      }
    } else {
      var run := FailingRun(s, timely);
      SettledLedger(Exec(s, run));
    }
  }

  lemma BeginCopes(s: Pool, timely: bool)
    ensures Copes(BeginWait(s), timely) <==> Copes(s, timely)
  {
  }

  /**
   For any reservations, timeouts and order of steps before the call: `wait()`
   is certain to return with every accepted task done if and only if the workers
   can cope with the queue when it is called.  With `timely`, for the schedules
   in which nobody times out during the call; without, for all of them.
   */
  lemma WaitDrainsExactly(s: Pool, timely: bool)
    requires Sound(s) && !s.exiting
    ensures Sound(BeginWait(s))
    ensures AlwaysDrains(BeginWait(s), timely) <==> Copes(s, timely)
  {
    hide Sound, Copes, Called;
    BeginCalls(s);
    assert BeginWait(s).exiting;
    DrainsExactly(BeginWait(s), timely);
    BeginCopes(s, timely);
  }
}
