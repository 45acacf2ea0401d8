/**
 The plain pool: nothing is reserved, and timeouts strike only unsignalled
 workers and retire them in one step.  Its counters are exact, no wake-up is
 lost, and `wait()` returns only when every accepted task is done.
 */
module PoolDrain {
  import opened Base
  import opened PoolState
  import opened PoolProgress
  import PoolAccounts
  import PoolWait

  /** A step of the plain pool; `Expire` is a timeout and the relock after it. */
  datatype Move = Do(event: Event) | Expire(w: nat, top: Task)

  function Run(s: Pool): nat { Count(s.workers, Running) }

  /** Workers that got a signal and are on their way to the queue. */
  function Coming(s: Pool): nat { s.wakeups + Count(s.workers, Woken(false)) }

  /** While the pool is not full, each queued task has a worker coming for it. */
  predicate Served(s: Pool) {
    CanStart(s) ==> |s.queue| <= Coming(s)
  }

  /** In `wait()`: everyone is signalled, and no task outlives the workers. */
  predicate Draining(s: Pool) {
    && s.wakeups == s.waiters
    && s.idl + |s.ret| <= s.maxThreads
    && (s.idl + |s.ret| > 0 ==> |s.queue| <= Coming(s))
    && (s.queue != multiset{} ==> Run(s) + Coming(s) > 0)
  }

  predicate Plain(s: Pool) {
    && s.res == 0
    && Count(s.workers, Woken(true)) == 0
    && (if s.exiting then Draining(s) else PoolAccounts.Accounted(s) && Served(s))
  }

  predicate Allowed(s: Pool, m: Move) {
    match m
    case Do(e) => Enabled(s, e) && !e.Reserve? && !e.TimeOut?
    case Expire(w, top) => InMode(s, w, Waiting) && s.wakeups < s.waiters && TopOf(s, top)
  }

  predicate WorkerMove(m: Move) {
    m.Expire? || m.event.Finish? || m.event.Wake? || m.event.Relock?
  }

  lemma ExpireEnabled(s: Pool, w: nat, top: Task)
    requires Sound(s) && InMode(s, w, Waiting) && TopOf(s, top)
    ensures Sound(Step(s, TimeOut(w))) && Enabled(Step(s, TimeOut(w)), Relock(w, top))
  {
    StepSound(s, TimeOut(w));
  }

  ghost function Apply(s: Pool, m: Move): Pool
    requires Sound(s) && Allowed(s, m)
  {
    match m
    case Do(e) => Step(s, e)
    case Expire(w, top) =>
      ExpireEnabled(s, w, top);
      Step(Step(s, TimeOut(w)), Relock(w, top))
  }

  lemma ApplySound(s: Pool, m: Move)
    requires Sound(s) && Allowed(s, m)
    ensures Sound(Apply(s, m))
  {
    hide Sound, Step;
    match m
    case Do(e) => StepSound(s, e);
    case Expire(w, top) =>
      ExpireEnabled(s, w, top);
      StepSound(Step(s, TimeOut(w)), Relock(w, top));
  }

  /** Nothing but running, signalled and woken workers is active. */
  lemma ActiveWorkers(s: Pool)
    requires Sound(s) && Plain(s)
    ensures !s.exiting ==> Active(s) == Run(s) + Coming(s) <= |s.workers| <= s.maxThreads
    ensures s.exiting ==> (Overworking(s) <==> s.idl + |s.ret| > 0)
  {
    CountTotal(s.workers);
  }

  // ---------------------------------------------------------------------
  // Each step keeps the plain invariant

  lemma PlacePlain(s: Pool, t: Task)
    requires Frame(s) && Plain(s) && !s.exiting && CanStart(s)
    requires s.ret != [] ==> s.ret[|s.ret| - 1] < |s.workers|
    ensures Plain(Place(s, t))
  {
    CountTotal(s.workers);
    if s.idl > 0 {
      assert s.wakeups < s.waiters;
    } else if s.ret != [] {
      var w := s.ret[|s.ret| - 1];
      assert w in s.ret;
      Moved(s, w, Worker(Running, Some(t)));
    } else {
      AppendWorker(s.workers, Worker(Running, Some(t)));
    }
  }

  lemma EnqueuePlain(s: Pool, t: Task)
    requires Frame(s) && Plain(s) && !s.exiting && !CanStart(s)
    ensures Plain(Enqueue(s, t))
  {
    CountTotal(s.workers);
  }

  lemma StartPlain(s: Pool, t: Task, choked: bool)
    requires Sound(s) && Plain(s) && !s.exiting
    ensures Plain(StartTask(s, t)) && Plain(StartTaskNow(s, t, choked))
  {
    hide Place, Enqueue, Count;
    var s1 := Accept(s, t);
    if CanStart(s1) {
      PlacePlain(s1, t);
    } else {
      EnqueuePlain(s1, t);
    }
  }

  lemma FetchCounts(s: Pool, s1: Pool, w: nat, top: Task)
    requires Sound(s) && Plain(s) && top in s.queue && InHand(s, w)
    requires s1 == s.(pol := s1.pol, done := s1.done)
    ensures var r := Fetch(s1, w, top);
            && |r.queue| == |s.queue| - 1 && Run(r) > 0
            && Coming(r) == Coming(s) - (if s.workers[w].mode == Running then 0 else 1)
            && Count(r.workers, Woken(true)) == 0
  {
    Moved(s, w, Worker(Running, Some(top)));
  }

  lemma FetchPlain(s: Pool, s1: Pool, w: nat, top: Task)
    requires Sound(s) && Plain(s) && top in s.queue && InHand(s, w)
    requires s1 == s.(pol := s1.pol, done := s1.done)
    requires !Overworking(s) || s.workers[w].mode == Woken(false)
    ensures Plain(Fetch(s1, w, top))
  {
    hide Count, Fetch;
    FetchCounts(s, s1, w, top);
    FetchFrame(s, s1, w, top);
    ActiveWorkers(s);
  }

  lemma ParkPlain(s: Pool, s1: Pool, w: nat)
    requires Sound(s) && Plain(s) && InHand(s, w)
    requires s1 == s.(pol := s1.pol, done := s1.done)
    requires s.queue == multiset{} || (Overworking(s) && s.workers[w].mode == Running)
    ensures Plain(Park(s1, w))
  {
    CountTotal(s.workers);
    ActiveWorkers(s);
    Moved(s, w, Parked(s));
    assert Parked(s1) == Parked(s);
  }

  lemma WakePlain(s: Pool, w: nat)
    requires Sound(s) && Plain(s) && InMode(s, w, Waiting) && s.wakeups > 0
    ensures Plain(WakeWorker(s, w))
  {
    CountTotal(s.workers);
    Moved(s, w, Worker(Woken(false), None));
  }

  lemma FinishPlain(s: Pool, w: nat, top: Task)
    requires Sound(s) && Plain(s) && Enabled(s, Finish(w, top))
    ensures Plain(FinishTask(s, w, top))
  {
    hide Sound, Frame, Plain;
    var s1 := Done(s, w);
    assert Overworking(s1) == Overworking(s);
    if !Overworking(s1) && s1.queue != multiset{} {
      FetchPlain(s, s1, w, top);
    } else {
      ParkPlain(s, s1, w);
    }
  }

  lemma RelockPlain(s: Pool, w: nat, top: Task)
    requires Sound(s) && Plain(s) && Enabled(s, Relock(w, top))
    ensures s.workers[w].mode == Woken(false)
    ensures Plain(RelockWorker(s, w, top))
  {
    CountMember(s.workers, w);
    assert s.workers[w].mode == Woken(false);
    hide Sound, Plain;
    var s1 := s.(pol := Inc32(s.pol));
    if s1.queue != multiset{} {
      FetchPlain(s, s1, w, top);
    } else {
      ParkPlain(s, s1, w);
    }
  }

  /** The state after a timeout and the relock that follows it. */
  lemma ExpiredState(s: Pool, w: nat, top: Task)
    requires Sound(s) && Plain(s) && Allowed(s, Expire(w, top))
    ensures !s.exiting && s.idl > 0
    ensures Apply(s, Expire(w, top))
         == s.(waiters := s.waiters - 1, idl := s.idl - 1, ret := s.ret + [w],
               workers := s.workers[w := Worker(Retired, None)])
  {
    CountTotal(s.workers);
    CountMember(s.workers, w);
    ExpireEnabled(s, w, top);
    ExpireThenRelock(s, w, top);
  }

  lemma ExpireThenRelock(s: Pool, w: nat, top: Task)
    requires w < |s.workers| && s.waiters > 0 && s.idl > 0 && s.pol + 1 < TWO32
    ensures RelockWorker(ExpireWorker(s, w), w, top)
         == s.(waiters := s.waiters - 1, idl := s.idl - 1, ret := s.ret + [w],
               workers := s.workers[w := Worker(Retired, None)])
  {
    assert ExpireWorker(s, w).workers[w := Worker(Retired, None)] == s.workers[w := Worker(Retired, None)];
  }

  lemma ExpirePlain(s: Pool, w: nat, top: Task)
    requires Sound(s) && Plain(s) && Allowed(s, Expire(w, top))
    ensures Plain(Apply(s, Expire(w, top)))
  {
    ExpiredState(s, w, top);
    CountTotal(s.workers);
    Moved(s, w, Worker(Retired, None));
  }

  lemma BeginWaitPlain(s: Pool)
    requires Sound(s) && Plain(s) && !s.exiting
    ensures Plain(BeginWait(s))
  {
    CountTotal(s.workers);
  }

  lemma EndWaitPlain(s: Pool)
    requires Sound(s) && Plain(s) && s.exiting && Settled(s)
    ensures s.queue == multiset{} && s.accepted == s.done
    ensures EndWait(s) == Init(s.maxThreads).(accepted := s.accepted, done := s.done)
  {
    forall m: Mode | m != Retired && m != Exited
      ensures Count(s.workers, m) == 0
    {
      if Count(s.workers, m) > 0 {
        var w := FindMode(s.workers, m);
      }
    }
    assert |s.queue| == 0;
    forall t: Task
      ensures s.accepted[t] == s.done[t]
    {
      NothingHeld(s.workers, t);
    }
  }

  lemma PlainKept(s: Pool, m: Move)
    requires Sound(s) && Plain(s) && Allowed(s, m)
    ensures Plain(Apply(s, m))
  {
    hide Sound, Plain, StartTask, StartTaskNow, FinishTask, RelockWorker;
    match m
    case Expire(w, top) => ExpirePlain(s, w, top);
    case Do(Start(t)) => StartPlain(s, t, false);
    case Do(StartNow(t, choked)) => StartPlain(s, t, choked);
    case Do(Finish(w, top)) => FinishPlain(s, w, top);
    case Do(Wake(w)) => WakePlain(s, w);
    case Do(Relock(w, top)) => RelockPlain(s, w, top);
    case Do(WaitBegin) => BeginWaitPlain(s);
    case Do(WaitEnd) => FreshPlain(s);
    case Do(Reserve(_, _)) => assert false;
    case Do(TimeOut(_)) => assert false;
  }

  lemma FreshPlain(s: Pool)
    requires Sound(s) && Plain(s) && s.exiting && Settled(s)
    ensures Plain(EndWait(s))
  {
    EndWaitPlain(s);
  }

  // ---------------------------------------------------------------------
  // Runs of the plain pool

  ghost predicate Possible(s: Pool, moves: seq<Move>)
    requires Sound(s)
    decreases moves
  {
    moves == [] ||
    (Allowed(s, moves[0]) && (ApplySound(s, moves[0]); Possible(Apply(s, moves[0]), moves[1..])))
  }

  ghost function After(s: Pool, moves: seq<Move>): (r: Pool)
    requires Sound(s) && Possible(s, moves)
    ensures Sound(r)
    ensures Plain(s) ==> Plain(r)
    decreases moves
  {
    if moves == [] then s
    else
      ApplySound(s, moves[0]);
      var s1 := Apply(s, moves[0]);
      assert Plain(s) ==> Plain(s1) by {
        if Plain(s) {
          PlainKept(s, moves[0]);
        }
      }
      After(s1, moves[1..])
  }

  // ---------------------------------------------------------------------
  // The results

  lemma InitPlain(maxThreads: nat)
    requires 1 <= maxThreads < 0x8000_0000
    ensures Sound(Init(maxThreads)) && Plain(Init(maxThreads))
  {
  }

  /**
   Between waits, every reachable state has exact counters: the idle counter is
   the number of unsignalled waiters, `pol_threads_` the number of running
   workers, and `active_threads()` counts exactly the running, signalled and
   woken workers, never more than the maximum.
   */
  lemma CountersAreExact(maxThreads: nat, moves: seq<Move>)
    requires 1 <= maxThreads < 0x8000_0000
    requires Sound(Init(maxThreads)) && Possible(Init(maxThreads), moves)
    ensures var r := After(Init(maxThreads), moves);
            !r.exiting ==>
              && r.wakeups <= r.waiters && r.idl == r.waiters - r.wakeups
              && r.pol == Run(r)
              && r.pol + r.idl + |r.ret| + Coming(r) == |r.workers| == |r.all|
              && Active(r) == r.pol + Coming(r) <= r.maxThreads
  {
    InitPlain(maxThreads);
    var r := After(Init(maxThreads), moves);
    ActiveWorkers(r);
    CountTotal(r.workers);
  }

  /** No lost wake-up: a queued task always has a worker that will come to the queue. */
  lemma NoLostWakeup(s: Pool)
    requires Sound(s) && Plain(s) && s.queue != multiset{}
    ensures Run(s) + Coming(s) > 0
  {
    ActiveWorkers(s);
    assert |s.queue| > 0;
  }

  /** No worker can take another step, except for an idle one to retire. */
  ghost predicate AtRest(s: Pool) {
    forall m: Move :: WorkerMove(m) && !m.Expire? ==> !Allowed(s, m)
  }

  lemma RestMeansNobodyActive(s: Pool)
    requires Sound(s) && Plain(s) && AtRest(s)
    ensures Run(s) == 0 && Coming(s) == 0
  {
    var top: Task := if s.queue == multiset{} then 0 else var t :| t in s.queue; t;
    if Run(s) > 0 {
      var w := FindMode(s.workers, Running);
      assert Allowed(s, Do(Finish(w, top)));
    }
    if Count(s.workers, Woken(false)) > 0 {
      var w := FindMode(s.workers, Woken(false));
      assert Allowed(s, Do(Relock(w, top)));
    }
    if s.wakeups > 0 {
      var w := FindMode(s.workers, Waiting);
      assert Allowed(s, Do(Wake(w)));
    }
  }

  /** Where the workers stop, the queue is empty and every accepted task is done. */
  lemma RestMeansAllDone(s: Pool)
    requires Sound(s) && Plain(s) && AtRest(s)
    ensures s.queue == multiset{} && s.accepted == s.done
    ensures s.exiting ==> Enabled(s, WaitEnd)
  {
    RestMeansNobodyActive(s);
    if s.queue != multiset{} {
      NoLostWakeup(s);
    }
    forall w | 0 <= w < |s.workers|
      ensures s.workers[w].mode != Running
      ensures s.exiting ==> s.workers[w].mode == Retired || s.workers[w].mode == Exited
    {
      CountMember(s.workers, w);
    }
    forall t: Task
      ensures s.accepted[t] == s.done[t]
    {
      NothingHeld(s.workers, t);
    }
  }

  /**
   `wait()` drains: whenever it can return, every accepted task is done, nothing
   is queued, and the pool is as good as new.
   */
  lemma WaitDrains(maxThreads: nat, moves: seq<Move>)
    requires 1 <= maxThreads < 0x8000_0000
    requires Sound(Init(maxThreads)) && Possible(Init(maxThreads), moves)
    requires Enabled(After(Init(maxThreads), moves), WaitEnd)
    ensures var r := After(Init(maxThreads), moves);
            && r.accepted == r.done && r.queue == multiset{}
            && Step(r, WaitEnd) == Init(r.maxThreads).(accepted := r.accepted, done := r.done)
  {
    InitPlain(maxThreads);
    EndWaitPlain(After(Init(maxThreads), moves));
  }

  /** The plain pool meets the condition of `PoolWait` for schedules in which nobody times out. */
  lemma PlainCopes(s: Pool)
    requires Sound(s) && Plain(s) && !s.exiting
    ensures PoolWait.Copes(s, true)
    ensures Sound(BeginWait(s)) && PoolWait.AlwaysDrains(BeginWait(s), true)
  {
    BeginWaitPlain(s);
    PoolWait.WaitDrainsExactly(s, true);
    PoolWait.ShutMeans(s);
    if s.queue != multiset{} {
      assert |s.queue| > 0;
    }
  }

  /** The plain regime is an instance of the careful steps of `PoolAccounts`. */
  lemma PlainStepsAreCareful(s: Pool, m: Move)
    requires Sound(s) && Plain(s) && !s.exiting && Allowed(s, m)
    ensures m.Do? ==> PoolAccounts.Careful(s, m.event)
    ensures m.Expire? ==> PoolAccounts.Careful(s, TimeOut(m.w))
  {
    ActiveWorkers(s);
    CountTotal(s.workers);
  }
}
