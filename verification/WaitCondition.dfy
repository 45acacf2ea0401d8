/**
 The wait condition: POSIX condition variables may wake anybody for no reason,
 so `waiters_` and `wakeups_` count who waits and how many may leave.
 */
module WaitConditions {
  import opened Base

  /** The two counters, the threads inside `wait`, and how many signals were given and used. */
  datatype Condition = Condition(waiters: nat, wakeups: nat, inside: set<nat>, given: nat, used: nat)

  /**
   A thread enters `wait`; `pthread_cond_wait` returns to one inside, in time or
   late; somebody signals.
   */
  datatype Event = Enter(thread: nat) | Return(thread: nat, late: bool) | SignalOne | SignalAll

  function EnterWait(c: Condition, thread: nat): Condition {
    c.(waiters := Inc32(c.waiters), inside := c.inside + {thread})
  }

  /** Whether `wait` goes back to sleep: woken in time, but for no signal. */
  predicate Spurious(wakeups: nat, late: bool) {
    !late && wakeups == 0
  }

  function ReturnFromWait(c: Condition, thread: nat, late: bool): Condition {
    if Spurious(c.wakeups, late) then c
    else if late then c.(waiters := Dec32(c.waiters), inside := c.inside - {thread})
    else c.(waiters := Dec32(c.waiters), wakeups := Dec32(c.wakeups), inside := c.inside - {thread}, used := c.used + 1)
  }

  function Step(c: Condition, e: Event): Condition {
    match e
    case Enter(thread) => EnterWait(c, thread)
    case Return(thread, late) => ReturnFromWait(c, thread, late)
    case SignalOne => c.(wakeups := Min(Inc32(c.wakeups), c.waiters), given := c.given + 1)
    case SignalAll => c.(wakeups := c.waiters, given := c.given + c.waiters)
  }

  predicate Enabled(c: Condition, e: Event) {
    match e
    case Enter(thread) => thread !in c.inside && |c.inside| + 1 < TWO32
    case Return(thread, _) => thread in c.inside
    case _ => true
  }

  predicate Legal(c: Condition, run: seq<Event>)
    decreases run
  {
    run == [] || (Enabled(c, run[0]) && Legal(Step(c, run[0]), run[1..]))
  }

  function Exec(c: Condition, run: seq<Event>): Condition
    decreases run
  {
    if run == [] then c else Exec(Step(c, run[0]), run[1..])
  }

  const FRESH := Condition(0, 0, {}, 0, 0)

  /** Nobody waits unseen, and nobody leaves without a signal. */
  predicate Balanced(c: Condition) {
    && c.waiters == |c.inside| < TWO32
    && c.wakeups < TWO32
    && c.used + c.wakeups <= c.given
  }

  lemma StepBalanced(c: Condition, e: Event)
    requires Balanced(c) && Enabled(c, e)
    ensures Balanced(Step(c, e))
    ensures e.Return? && !Spurious(c.wakeups, e.late) ==> c.waiters > 0 && (!e.late ==> c.wakeups > 0)
  {
    if e.Return? {
      assert c.inside != {};
      assert |c.inside - {e.thread}| == |c.inside| - 1;
    }
  }

  /**
   Over every run, timeouts included: `waiters_` is the number of threads inside
   `wait`, and the successful returns so far together with the pending wake-ups
   never exceed the signals given.
   */
  lemma {:induction false} WakeupsArePaidFor(c: Condition, run: seq<Event>)
    requires Balanced(c) && Legal(c, run)
    ensures Balanced(Exec(c, run))
    decreases run
  {
    if run != [] {
      StepBalanced(c, run[0]);
      WakeupsArePaidFor(Step(c, run[0]), run[1..]);
    }
  }

  /** The signal finds somebody who has none yet. */
  predicate Heard(c: Condition, e: Event) {
    match e
    case SignalOne => c.wakeups < c.waiters
    case SignalAll => c.wakeups == 0
    case Return(_, late) => !late
    case Enter(_) => true
  }

  predicate AllHeard(c: Condition, run: seq<Event>)
    requires Legal(c, run)
    decreases run
  {
    run == [] || (Heard(c, run[0]) && AllHeard(Step(c, run[0]), run[1..]))
  }

  /** No signal is lost: while each one is heard and nobody times out, every signal is used or pending. */
  lemma {:induction false} SignalsArrive(c: Condition, run: seq<Event>)
    requires Balanced(c) && c.wakeups <= c.waiters && c.used + c.wakeups == c.given
    requires Legal(c, run) && AllHeard(c, run)
    ensures Exec(c, run).used + Exec(c, run).wakeups == Exec(c, run).given
    decreases run
  {
    if run != [] {
      StepBalanced(c, run[0]);
      SignalsArrive(Step(c, run[0]), run[1..]);
    }
  }

  /** While nobody times out, every pending wake-up has a thread to take it. */
  lemma {:induction false} WakeupsFindWaiters(c: Condition, run: seq<Event>)
    requires Balanced(c) && c.wakeups <= c.waiters && Legal(c, run)
    requires forall i :: 0 <= i < |run| ==> !(run[i].Return? && run[i].late)
    ensures Exec(c, run).wakeups <= Exec(c, run).waiters
    decreases run
  {
    if run != [] {
      StepBalanced(c, run[0]);
      WakeupsFindWaiters(Step(c, run[0]), run[1..]);
    }
  }

  /**
   A waiter that times out leaves its wake-up behind exactly when every waiter had one.
   */
  lemma TimeoutStrandsWakeup(c: Condition, thread: nat)
    requires Balanced(c) && c.wakeups <= c.waiters && thread in c.inside
    ensures Step(c, Return(thread, true)).wakeups > Step(c, Return(thread, true)).waiters <==> c.wakeups == c.waiters
  {
    StepBalanced(c, Return(thread, true));
  }

  class WaitCondition {
    var waiters: nat
    var wakeups: nat
    ghost var inside: set<nat>
    ghost var given: nat
    ghost var used: nat

    ghost function View(): Condition
      reads this
    {
      Condition(waiters, wakeups, inside, given, used)
    }

    constructor ()
      ensures View() == FRESH
    {
      waiters, wakeups := 0, 0;
      inside, given, used := {}, 0, 0;
    }

    /** The part of `wait` before the thread blocks. */
    method EnterWait(ghost thread: nat)
      modifies this
      ensures View() == Step(old(View()), Enter(thread))
    {
      waiters := Inc32(waiters);
      inside := inside + {thread};
    }

    /** `pthread_cond_wait` came back: either the retry, or the way out. */
    method ReturnFromWait(ghost thread: nat, late: bool) returns (left: bool, success: bool)
      modifies this
      ensures left <==> !Spurious(old(wakeups), late)
      ensures success <==> left && !late
      ensures View() == Step(old(View()), Return(thread, late))
    {
      if !late && wakeups == 0 {
        return false, false;
      }
      waiters := Dec32(waiters);
      inside := inside - {thread};
      if !late {
        wakeups := Dec32(wakeups);
        used := used + 1;
      }
      return true, !late;
    }

    method SignalOne()
      modifies this
      ensures View() == Step(old(View()), Event.SignalOne)
    {
      wakeups := Min(Inc32(wakeups), waiters);
      given := given + 1;
    }

    method SignalAll()
      modifies this
      ensures View() == Step(old(View()), Event.SignalAll)
    {
      given := given + waiters;
      wakeups := waiters;
    }
  }
}
