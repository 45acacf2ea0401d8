/**
 The workers of any pool come to rest, whatever was reserved and whoever times
 out, and `wait()` always returns.
 */
module PoolProgress {
  import opened Base
  import opened PoolState

  predicate WorkerEvent(e: Event) {
    e.Finish? || e.Wake? || e.TimeOut? || e.Relock?
  }

  predicate WorkerRun(run: seq<Event>) {
    forall i :: 0 <= i < |run| ==> WorkerEvent(run[i])
  }

  /** Every worker step makes this smaller. */
  function Measure(s: Pool): nat {
    |s.queue| + 3 * Count(s.workers, Running) + 3 * Count(s.workers, Woken(false)) + Count(s.workers, Woken(true))
    + 2 * s.wakeups + 2 * Count(s.workers, Waiting)
  }

  /** How the counts of one mode change when a worker moves. */
  lemma Moved(s: Pool, w: nat, next: Worker)
    requires w < |s.workers|
    ensures forall m :: Count(s.workers[w := next], m) + (if s.workers[w].mode == m then 1 else 0)
                     == Count(s.workers, m) + (if next.mode == m then 1 else 0)
    ensures Count(s.workers, s.workers[w].mode) > 0
  {
    forall m {
      CountUpdate(s.workers, w, next, m);
    }
    CountMember(s.workers, w);
  }

  /** A worker that may look for a task: back from one, or woken in time. */
  predicate InHand(s: Pool, w: nat) {
    InMode(s, w, Running) || InMode(s, w, Woken(false))
  }

  lemma FetchFrame(s: Pool, s1: Pool, w: nat, top: Task)
    requires w < |s.workers| && s1 == s.(pol := s1.pol, done := s1.done)
    ensures var r := Fetch(s1, w, top); r == s.(pol := r.pol, done := r.done, queue := r.queue, workers := r.workers)
  {
  }

  lemma FetchDescends(s: Pool, s1: Pool, w: nat, top: Task)
    requires InHand(s, w) && top in s.queue && s1 == s.(pol := s1.pol, done := s1.done)
    ensures Measure(Fetch(s1, w, top)) < Measure(s)
  {
    Moved(s, w, Worker(Running, Some(top)));
    FetchFrame(s, s1, w, top);
  }

  lemma ParkDescends(s: Pool, s1: Pool, w: nat)
    requires InHand(s, w) && s1 == s.(pol := s1.pol, done := s1.done)
    ensures Measure(Park(s1, w)) < Measure(s)
  {
    Moved(s, w, Parked(s1));
    assert Park(s1, w).workers == s.workers[w := Parked(s1)];
  }

  lemma LeaveDescends(s: Pool, w: nat)
    requires InMode(s, w, Waiting)
    ensures 0 < s.wakeups ==> Measure(WakeWorker(s, w)) < Measure(s)
    ensures Measure(ExpireWorker(s, w)) < Measure(s)
  {
    Moved(s, w, Worker(Woken(false), None));
    Moved(s, w, Worker(Woken(true), None));
  }

  lemma LateDescends(s: Pool, w: nat, top: Task)
    requires InMode(s, w, Woken(true))
    ensures Measure(RelockWorker(s, w, top)) < Measure(s)
  {
    Moved(s, w, Worker(Retired, None));
  }

  lemma FinishDescends(s: Pool, w: nat, top: Task)
    requires Enabled(s, Finish(w, top))
    ensures Measure(FinishTask(s, w, top)) < Measure(s)
  {
    hide Measure, Overworking;
    var s1 := Done(s, w);
    if !Overworking(s1) && s1.queue != multiset{} {
      FetchDescends(s, s1, w, top);
    } else {
      ParkDescends(s, s1, w);
    }
  }

  lemma RelockDescends(s: Pool, w: nat, top: Task)
    requires Enabled(s, Relock(w, top))
    ensures Measure(RelockWorker(s, w, top)) < Measure(s)
  {
    hide Measure;
    var s1 := s.(pol := Inc32(s.pol));
    if InMode(s, w, Woken(true)) {
      LateDescends(s, w, top);
    } else if s1.queue != multiset{} {
      FetchDescends(s, s1, w, top);
    } else {
      ParkDescends(s, s1, w);
    }
  }

  lemma WorkersDescend(s: Pool, e: Event)
    requires Sound(s) && Enabled(s, e) && WorkerEvent(e)
    ensures Measure(Step(s, e)) < Measure(s)
  {
    hide Sound, Measure, FinishTask, RelockWorker, WakeWorker, ExpireWorker;
    match e
    case Finish(w, top) => FinishDescends(s, w, top);
    case Wake(w) => LeaveDescends(s, w);
    case TimeOut(w) => LeaveDescends(s, w);
    case Relock(w, top) => RelockDescends(s, w, top);
  }

  /** Without further calls the workers stop after a bounded number of steps. */
  lemma {:induction false} DrainingEnds(s: Pool, run: seq<Event>)
    requires Sound(s) && Legal(s, run) && WorkerRun(run)
    ensures |run| + Measure(Exec(s, run)) <= Measure(s)
    decreases run
  {
    hide Sound, Measure, Step, Enabled, WorkerEvent, Legal, Exec;
    if run == [] {
      NoEvents(s);
    } else {
      First(s, run);
      WorkersDescend(s, run[0]);
      DrainingEnds(Step(s, run[0]), run[1..]);
    }
  }

  /** In `wait()`, every waiter has a signal. */
  predicate Called(s: Pool) {
    s.exiting && s.wakeups >= s.waiters
  }

  lemma BeginCalls(s: Pool)
    requires Sound(s) && !s.exiting
    ensures Sound(BeginWait(s)) && Called(BeginWait(s))
  {
    BeginWaitSound(s);
  }

  lemma StillCalled(s: Pool, e: Event)
    requires Sound(s) && Called(s) && Enabled(s, e) && WorkerEvent(e)
    ensures Called(Step(s, e))
  {
    Bounds(s, e.w);
  }

  lemma {:induction false} RunStillCalled(s: Pool, run: seq<Event>)
    requires Sound(s) && Called(s) && Legal(s, run) && WorkerRun(run)
    ensures Called(Exec(s, run))
    decreases run
  {
    hide Sound, Called, Step, Enabled, WorkerEvent, Legal, Exec;
    if run == [] {
      NoEvents(s);
    } else {
      First(s, run);
      StillCalled(s, run[0]);
      RunStillCalled(Step(s, run[0]), run[1..]);
    }
  }

  /** A step that needs no timeout and no caller. */
  predicate Ready(s: Pool, e: Event) {
    WorkerEvent(e) && !e.TimeOut? && Enabled(s, e)
  }

  lemma SomeTop(s: Pool) returns (top: Task)
    ensures TopOf(s, top)
  {
    if s.queue == multiset{} {
      top := 0;
    } else {
      top :| top in s.queue;
    }
  }

  /** As long as a worker has not returned from `run`, one of them can go on by itself. */
  lemma SomebodyGoesOn(s: Pool) returns (e: Event)
    requires Sound(s) && Called(s) && !Settled(s)
    ensures Ready(s, e)
  {
    var w :| 0 <= w < |s.workers| && s.workers[w].mode != Retired && s.workers[w].mode != Exited;
    var top := SomeTop(s);
    Bounds(s, w);
    match s.workers[w].mode
    case Running => e := Finish(w, top);
    case Waiting => e := Wake(w);
    case Woken(_) => e := Relock(w, top);
  }

  /**
   `wait()` always returns: from any state in which it is called, the workers
   take no more steps than the measure says, and whenever they stop by
   themselves, every one of them has returned from `run`.
   */
  lemma WaitReturns(s: Pool, run: seq<Event>)
    requires Sound(s) && !s.exiting
    requires Sound(BeginWait(s)) && Legal(BeginWait(s), run) && WorkerRun(run)
    ensures var r := Exec(BeginWait(s), run);
            && |run| <= Measure(BeginWait(s))
            && (Enabled(r, WaitEnd) <==> forall e :: !Ready(r, e))
  {
    hide Sound, Called, Measure, BeginWait, Legal, Exec;
    BeginCalls(s);
    DrainingEnds(BeginWait(s), run);
    RunStillCalled(BeginWait(s), run);
    var r := Exec(BeginWait(s), run);
    IsExiting(r);
    if !Settled(r) {
      var e := SomebodyGoesOn(r);
    }
  }

  lemma IsExiting(s: Pool)
    requires Called(s)
    ensures s.exiting
  {
  }
}
