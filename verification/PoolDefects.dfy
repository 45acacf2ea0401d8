/**
 Runs of a one-thread pool in which `wait()` returns although a task that
 `start` accepted was never executed.  When it is called, the condition of
 `PoolWait` is not met.
 */
module PoolDefects {
  import opened Base
  import opened PoolState
  import PoolAccounts
  import PoolWait

  /** The one-thread pool once its only worker exists. */
  function One(pol: nat, res: nat, idl: nat, worker: Worker, queue: multiset<Task>, waiters: nat, wakeups: nat,
               accepted: multiset<Task>, done: multiset<Task>): Pool
  {
    Pool(1, false, pol, res, idl, [0], if worker.mode == Retired then [0] else [], queue, waiters, wakeups, [worker],
         accepted, done)
  }

  const BUSY1 := Worker(Running, Some(1))
  const BUSY2 := Worker(Running, Some(2))
  const BUSY3 := Worker(Running, Some(3))
  const ASLEEP := Worker(Waiting, None)
  const LATE := Worker(Woken(true), None)
  const WOKEN := Worker(Woken(false), None)
  const GONE := Worker(Retired, None)

  /** An event leads from one state to another. */
  ghost predicate Leads(s: Pool, e: Event, s1: Pool) {
    Sound(s) ==> Enabled(s, e) && Step(s, e) == s1
  }

  /** Every event leads from the state at its place to the next one. */
  ghost predicate Chain(states: seq<Pool>, run: seq<Event>) {
    && |states| == |run| + 1
    && forall i :: 0 <= i < |run| ==> Leads(states[i], run[i], states[i + 1])
  }

  lemma {:induction false} ChainIsRun(states: seq<Pool>, run: seq<Event>)
    requires Chain(states, run) && Sound(states[0])
    ensures Legal(states[0], run) && Exec(states[0], run) == states[|run|]
    decreases run
  {
    hide Sound, Enabled, Step, Legal, Exec;
    if run == [] {
      NoEvents(states[0]);
    } else {
      assert Leads(states[0], run[0], states[1]);
      StepSound(states[0], run[0]);
      assert Chain(states[1..], run[1..]);
      ChainIsRun(states[1..], run[1..]);
      Before(states[0], run[0], states[1], run[1..], states[|run|]);
      assert run == [run[0]] + run[1..];
    }
  }

  ghost predicate Reaches(s: Pool, run: seq<Event>, r: Pool) {
    Sound(s) ==> Sound(r) && Legal(s, run) && Exec(s, run) == r
  }

  lemma Reached(states: seq<Pool>, run: seq<Event>)
    requires Chain(states, run)
    ensures Reaches(states[0], run, states[|run|])
  {
    hide Sound, Legal, Exec, Leads;
    if Sound(states[0]) {
      ChainIsRun(states, run);
    }
  }

  /** One run after another. */
  lemma Onwards(s: Pool, a: seq<Event>, m: Pool, b: seq<Event>, r: Pool)
    requires Reaches(s, a, m) && Reaches(m, b, r)
    ensures Reaches(s, a + b, r)
  {
    hide Sound, Legal, Exec;
    if Sound(s) {
      ExecJoins(s, a, b);
    }
  }

  // ---------------------------------------------------------------------
  // A timeout that strikes before the worker has the pool mutex back

  const LATE_RUN: seq<Event> := [Start(1), Finish(0, 0), TimeOut(0)] + [Start(2), Relock(0, 2)] + [WaitBegin, WaitEnd]

  const L1 := One(1, 0, 0, BUSY1, multiset{}, 0, 0, multiset{1}, multiset{})
  const L2 := One(0, 0, 1, ASLEEP, multiset{}, 1, 0, multiset{1}, multiset{1})
  const L3 := One(0, 0, 1, LATE, multiset{}, 0, 0, multiset{1}, multiset{1})
  const L4 := One(0, 0, 0, LATE, multiset{2}, 0, 0, multiset{1, 2}, multiset{1})
  const L5 := One(0, 0, TWO32 - 1, GONE, multiset{2}, 0, 0, multiset{1, 2}, multiset{1})
  const L6 := L5.(exiting := true, all := [])
  const L7 := L6.(exiting := false, ret := [], idl := 0, workers := [])

  lemma LateReaches()
    ensures Reaches(Init(1), [Start(1), Finish(0, 0), TimeOut(0)], L3)
  {
    hide Sound, Frame, Conserved, Legal, Exec;
    Reached([Init(1), L1, L2, L3], [Start(1), Finish(0, 0), TimeOut(0)]);
  }

  lemma LateGoesOn()
    ensures Reaches(L3, [Start(2), Relock(0, 2)], L5)
  {
    hide Sound, Frame, Conserved, Legal, Exec;
    Reached([L3, L4, L5], [Start(2), Relock(0, 2)]);
  }

  lemma LateWaits()
    ensures Reaches(L5, [WaitBegin, WaitEnd], L7)
  {
    hide Sound, Frame, Conserved, Legal, Exec;
    Reached([L5, L6, L7], [WaitBegin, WaitEnd]);
  }

  /**
   Nothing is reserved, and yet: the second `start` finds an idle worker on the
   books that has already timed out, so its signal reaches nobody.  The task is
   accepted, `wait()` returns, and the task is still queued.
   */
  lemma LateTimeoutLosesTask()
    ensures Sound(Init(1)) && Legal(Init(1), LATE_RUN) && Exec(Init(1), LATE_RUN) == L7
    ensures !L7.exiting && L7.queue == multiset{2} && L7.accepted[2] == 1 && L7.done[2] == 0
    ensures !PoolAccounts.Careful(L3, Start(2))
  {
    hide Sound, Legal, Exec;
    InitSound(1);
    LateReaches();
    LateGoesOn();
    LateWaits();
    Onwards(Init(1), [Start(1), Finish(0, 0), TimeOut(0)], L3, [Start(2), Relock(0, 2)], L5);
    Onwards(Init(1), [Start(1), Finish(0, 0), TimeOut(0)] + [Start(2), Relock(0, 2)], L5, [WaitBegin, WaitEnd], L7);
  }

  // ---------------------------------------------------------------------
  // Reservations

  const SHORT_RUN: seq<Event> := [Reserve(1, 0), Start(7), WaitBegin, WaitEnd]

  const S1 := Init(1).(res := 1)
  const S2 := S1.(queue := multiset{7}, accepted := multiset{7})
  const S3 := S2.(exiting := true)

  /**
   The shortest way: with every thread reserved, `start` accepts a task for
   which there is no worker, and `wait()` does not create one.  The idle counter
   is right all the time.
   */
  lemma FullReservationLosesTask()
    ensures Sound(Init(1)) && Legal(Init(1), SHORT_RUN) && Exec(Init(1), SHORT_RUN) == S2
    ensures S2.queue == multiset{7} && S2.accepted[7] == 1 && S2.done[7] == 0
    ensures PoolAccounts.Careful(Init(1), Reserve(1, 0)) && PoolAccounts.Careful(S1, Start(7))
    ensures PoolAccounts.Accounted(S2)
  {
    hide Sound, Frame, Conserved, Legal, Exec;
    InitSound(1);
    Reached([Init(1), S1, S2, S3, S2], SHORT_RUN);
  }

  /** A task started while the only thread is reserved, and two more after it was given back. */
  const RESERVED_RUN: seq<Event> := [Start(1), Finish(0, 0), Reserve(1, 0)] + [Start(2), Wake(0), Relock(0, 2)]
  const RETURNED_RUN: seq<Event> := [Finish(0, 0), Reserve(0, 0)] + [Start(3), Start(4)]

  const R3 := One(0, 1, 1, ASLEEP, multiset{}, 1, 0, multiset{1}, multiset{1})
  const R4 := One(0, 1, 1, ASLEEP, multiset{2}, 1, 1, multiset{1, 2}, multiset{1})
  const R5 := One(0, 1, 1, WOKEN, multiset{2}, 0, 0, multiset{1, 2}, multiset{1})
  const R6 := One(1, 1, 1, BUSY2, multiset{}, 0, 0, multiset{1, 2}, multiset{1})
  const R7 := One(0, 1, 2, ASLEEP, multiset{}, 1, 0, multiset{1, 2}, multiset{1, 2})
  const R8 := One(0, 0, 2, ASLEEP, multiset{}, 1, 0, multiset{1, 2}, multiset{1, 2})
  const R9 := One(0, 0, 2, ASLEEP, multiset{3}, 1, 1, multiset{1, 2, 3}, multiset{1, 2})
  const R10 := One(0, 0, 2, ASLEEP, multiset{3, 4}, 1, 1, multiset{1, 2, 3, 4}, multiset{1, 2})

  lemma ReservedReaches()
    ensures Reaches(Init(1), [Start(1), Finish(0, 0), Reserve(1, 0)], R3)
  {
    hide Sound, Frame, Conserved, Legal, Exec;
    Reached([Init(1), L1, L2, R3], [Start(1), Finish(0, 0), Reserve(1, 0)]);
  }

  lemma ReservedGoesOn()
    ensures Reaches(R3, [Start(2), Wake(0), Relock(0, 2)], R6)
  {
    hide Sound, Frame, Conserved, Legal, Exec;
    Reached([R3, R4, R5, R6], [Start(2), Wake(0), Relock(0, 2)]);
  }

  lemma ReturnedReaches()
    ensures Reaches(R6, [Finish(0, 0), Reserve(0, 0)], R8)
  {
    hide Sound, Frame, Conserved, Legal, Exec;
    Reached([R6, R7, R8], [Finish(0, 0), Reserve(0, 0)]);
  }

  lemma ReturnedStarts()
    ensures Leads(R8, Start(3), R9)
  {
    hide Sound, Frame, Conserved;
  }

  lemma ReturnedGoesOn()
    ensures Reaches(R8, [Start(3), Start(4)], R10)
  {
    ReturnedStarts();
    hide Sound, Frame, Conserved, Legal, Exec;
    Reached([R8, R9, R10], [Start(3), Start(4)]);
  }

  lemma ReservedRunReaches()
    ensures Reaches(Init(1), RESERVED_RUN + RETURNED_RUN, R10)
  {
    hide Reaches;
    ReservedReaches();
    ReservedGoesOn();
    Onwards(Init(1), [Start(1), Finish(0, 0), Reserve(1, 0)], R3, [Start(2), Wake(0), Relock(0, 2)], R6);
    ReturnedReaches();
    ReturnedGoesOn();
    Onwards(R6, [Finish(0, 0), Reserve(0, 0)], R8, [Start(3), Start(4)], R10);
    Onwards(Init(1), RESERVED_RUN, R6, RETURNED_RUN, R10);
  }

  lemma NotEnoughHelpers()
    ensures !PoolWait.Copes(R10, true)
  {
  }

  /**
   A `start` that is refused a thread still signals the idle worker, which works
   without having been taken off the books.  From then on one idle worker too
   many is booked, and `active_threads()` wraps once the reservation is given
   back.  With two more tasks and nothing reserved any more, `wait()` may return
   although one of them was never executed, even if nobody times out.
   */
  lemma ReservationLosesTask()
    ensures Sound(Init(1)) && Legal(Init(1), RESERVED_RUN + RETURNED_RUN)
    ensures Exec(Init(1), RESERVED_RUN + RETURNED_RUN) == R10 && R10.res == 0 && Sound(BeginWait(R10))
    ensures !PoolWait.AlwaysDrains(BeginWait(R10), true)
    ensures !PoolAccounts.Careful(R3, Start(2))
  {
    hide Sound, Legal, Exec, PoolWait.AlwaysDrains;
    InitSound(1);
    ReservedRunReaches();
    PoolWait.WaitDrainsExactly(R10, true);
    NotEnoughHelpers();
  }
}
