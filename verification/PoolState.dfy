/**
 The thread pool as a state machine.  Every step is one stretch of code that
 runs with the pool mutex held, or one change that `WaitCondition::wait` makes
 while the pool mutex is released.
 */
module PoolState {
  import opened Base

  /** A task pointer that is not NULL. */
  type Task = nat

  /**
   Where a worker thread is:
   running its task with the mutex released, waiting on the condition, returned
   from the wait but without the mutex (`late` if the wait timed out), returned
   from `run` after retiring, or returned from `run` because the pool is exiting.
   */
  datatype Mode = Running | Waiting | Woken(late: bool) | Retired | Exited

  /** A worker: its mode and its `task_` field. */
  datatype Worker = Worker(mode: Mode, slot: Option<Task>)

  datatype Pool = Pool(
    maxThreads: nat,
    exiting: bool,
    pol: nat,                  // pol_threads_
    res: nat,                  // res_threads_
    idl: nat,                  // idl_threads_
    all: seq<nat>,             // all_threads_, as worker numbers
    ret: seq<nat>,             // ret_threads_, as worker numbers
    queue: multiset<Task>,     // queue_, without its order
    waiters: nat,              // task_ready_.waiters_
    wakeups: nat,              // task_ready_.wakeups_
    workers: seq<Worker>,      // every worker created since the last wait()
    accepted: multiset<Task>,  // history: tasks for which start said true
    done: multiset<Task>)      // history: tasks that were executed

  datatype Event =
    | Start(task: Task)
    | StartNow(task: Task, choked: bool)
    | Reserve(count: nat, top: Task)
    | Finish(w: nat, top: Task)
    | Wake(w: nat)
    | TimeOut(w: nat)
    | Relock(w: nat, top: Task)
    | WaitBegin
    | WaitEnd

  // ---------------------------------------------------------------------
  // Counting workers

  function Count(ws: seq<Worker>, m: Mode): nat {
    if ws == [] then 0
    else Count(ws[..|ws| - 1], m) + if ws[|ws| - 1].mode == m then 1 else 0
  }

  function Has(w: Worker, t: Task): nat {
    if w.slot == Some(t) then 1 else 0
  }

  /** How often a task is in the workers' slots. */
  function Held(ws: seq<Worker>, t: Task): nat {
    if ws == [] then 0 else Held(ws[..|ws| - 1], t) + Has(ws[|ws| - 1], t)
  }

  lemma {:induction false} CountUpdate(ws: seq<Worker>, i: nat, w: Worker, m: Mode)
    requires i < |ws|
    ensures Count(ws[i := w], m) + (if ws[i].mode == m then 1 else 0)
         == Count(ws, m) + (if w.mode == m then 1 else 0)
    decreases ws
  {
    var n := |ws| - 1;
    if i < n {
      assert ws[i := w][..n] == ws[..n][i := w];
      CountUpdate(ws[..n], i, w, m);
    } else {
      assert ws[i := w][..n] == ws[..n];
    }
  }

  lemma {:induction false} HeldUpdate(ws: seq<Worker>, i: nat, w: Worker, t: Task)
    requires i < |ws|
    ensures Held(ws[i := w], t) + Has(ws[i], t) == Held(ws, t) + Has(w, t)
    decreases ws
  {
    var n := |ws| - 1;
    if i < n {
      assert ws[i := w][..n] == ws[..n][i := w];
      HeldUpdate(ws[..n], i, w, t);
    } else {
      assert ws[i := w][..n] == ws[..n];
    }
  }

  lemma AppendWorker(ws: seq<Worker>, w: Worker)
    ensures forall m :: Count(ws + [w], m) == Count(ws, m) + if w.mode == m then 1 else 0
    ensures forall t :: Held(ws + [w], t) == Held(ws, t) + Has(w, t)
  {
    assert (ws + [w])[..|ws|] == ws;
  }

  /** Every worker is in exactly one mode. */
  lemma {:induction false} CountTotal(ws: seq<Worker>)
    ensures Count(ws, Running) + Count(ws, Waiting) + Count(ws, Woken(false)) + Count(ws, Woken(true))
          + Count(ws, Retired) + Count(ws, Exited) == |ws|
  {
    if ws != [] {
      CountTotal(ws[..|ws| - 1]);
    }
  }

  lemma {:induction false} CountMember(ws: seq<Worker>, i: nat)
    requires i < |ws|
    ensures Count(ws, ws[i].mode) > 0
  {
    if i < |ws| - 1 {
      assert ws[..|ws| - 1][i] == ws[i];
      CountMember(ws[..|ws| - 1], i);
    }
  }

  lemma {:induction false} FindMode(ws: seq<Worker>, m: Mode) returns (i: nat)
    requires Count(ws, m) > 0
    ensures i < |ws| && ws[i].mode == m
  {
    i := |ws| - 1;
    if ws[i].mode != m {
      i := FindMode(ws[..|ws| - 1], m);
    }
  }

  lemma {:induction false} NothingHeld(ws: seq<Worker>, t: Task)
    requires forall i :: 0 <= i < |ws| ==> ws[i].slot.None?
    ensures Held(ws, t) == 0
  {
    if ws != [] {
      NothingHeld(ws[..|ws| - 1], t);
    }
  }

  // ---------------------------------------------------------------------
  // What every reachable state satisfies

  function Ids(n: nat): seq<nat> {
    seq(n, i => i)
  }

  predicate Distinct(s: seq<nat>) {
    forall i, j :: 0 <= i < j < |s| ==> s[i] != s[j]
  }

  /** `ret_threads_` lists exactly the retired workers, each once. */
  predicate RetiredListed(ret: seq<nat>, ws: seq<Worker>) {
    && Distinct(ret)
    && (forall i :: 0 <= i < |ret| ==> ret[i] < |ws|)
    && (forall w :: 0 <= w < |ws| ==> (w in ret <==> ws[w].mode == Retired))
    && |ret| == Count(ws, Retired)
  }

  /** A slot holds a task exactly while its worker runs. */
  predicate SlotsMatch(ws: seq<Worker>) {
    forall w :: 0 <= w < |ws| ==> (ws[w].slot.Some? <==> ws[w].mode == Running)
  }

  /** Each accepted task is in the queue, in a slot, or done, and in one of them only. */
  ghost predicate Conserved(s: Pool) {
    forall t: Task :: s.accepted[t] == s.queue[t] + Held(s.workers, t) + s.done[t]
  }

  /** The same with one more task in the hands of the running call. */
  ghost predicate ConservedBut(s: Pool, hand: Task) {
    forall t: Task :: s.accepted[t] == s.queue[t] + Held(s.workers, t) + s.done[t] + if t == hand then 1 else 0
  }

  /** Counters, lists and slots agree with the workers. */
  predicate Frame(s: Pool) {
    && 1 <= s.maxThreads < 0x8000_0000
    && s.res <= s.maxThreads
    && |s.workers| <= s.maxThreads
    && s.idl < TWO32 && s.wakeups < TWO32
    && s.all == (if s.exiting then [] else Ids(|s.workers|))
    && RetiredListed(s.ret, s.workers)
    && SlotsMatch(s.workers)
    && s.waiters == Count(s.workers, Waiting)
    && s.pol == Count(s.workers, Running)
    && (!s.exiting ==> Count(s.workers, Exited) == 0)
  }

  /** The invariant of every run, with reservations and timeouts of any kind. */
  ghost predicate Sound(s: Pool) {
    Frame(s) && Conserved(s)
  }

  function Init(maxThreads: nat): Pool {
    Pool(maxThreads, false, 0, 0, 0, [], [], multiset{}, 0, 0, [], multiset{}, multiset{})
  }

  // ---------------------------------------------------------------------
  // The steps

  /** `active_threads()`, in wrapping 32-bit arithmetic. */
  function Active(s: Pool): nat {
    (|s.all| + s.res - |s.ret| - s.idl) % TWO32
  }

  predicate Overworking(s: Pool) {
    Active(s) > s.maxThreads
  }

  function SignalOne(s: Pool): Pool {
    s.(wakeups := Min(Inc32(s.wakeups), s.waiters))
  }

  function Enqueue(s: Pool, t: Task): Pool {
    SignalOne(s.(queue := s.queue + multiset{t}))
  }

  function SetWorker(s: Pool, w: nat, mode: Mode, slot: Option<Task>): Pool
    requires w < |s.workers|
  {
    s.(workers := s.workers[w := Worker(mode, slot)])
  }

  function Spawn(s: Pool, t: Task): Pool {
    s.(all := s.all + [|s.workers|], pol := Inc32(s.pol), workers := s.workers + [Worker(Running, Some(t))])
  }

  function Restart(s: Pool, t: Task): Pool
    requires s.ret != [] && s.ret[|s.ret| - 1] < |s.workers|
  {
    var last := |s.ret| - 1;
    SetWorker(s.(ret := s.ret[..last], pol := Inc32(s.pol)), s.ret[last], Running, Some(t))
  }

  predicate CanStart(s: Pool) {
    Active(s) < s.maxThreads
  }

  /** `try_start` once the pool is known not to be full. */
  function Place(s: Pool, t: Task): Pool
    requires s.ret != [] ==> s.ret[|s.ret| - 1] < |s.workers|
  {
    if s.idl > 0 then Enqueue(s.(idl := s.idl - 1), t)
    else if s.ret != [] then Restart(s, t)
    else Spawn(s, t)
  }

  function Accept(s: Pool, t: Task): Pool {
    s.(accepted := s.accepted + multiset{t})
  }

  ghost function StartTask(s: Pool, t: Task): Pool
    requires Sound(s)
  {
    var s1 := Accept(s, t);
    if CanStart(s1) then Place(s1, t) else Enqueue(s1, t)
  }

  ghost function StartTaskNow(s: Pool, t: Task, choked: bool): Pool
    requires Sound(s)
  {
    if !choked && CanStart(s) then Place(Accept(s, t), t) else s
  }

  function SetReserved(s: Pool, count: nat): Pool {
    s.(res := if count > s.maxThreads then s.maxThreads else count)
  }

  ghost function ReserveThreads(s: Pool, count: nat, top: Task): Pool
    requires Sound(s)
    requires s.queue != multiset{} ==> top in s.queue
  {
    var s1 := SetReserved(s, count);
    if count < s.res && s.queue != multiset{} && CanStart(s1) then
      Place(s1.(queue := s1.queue - multiset{top}), top)
    else s1
  }

  /** The worker loop with no task in hand: exit, retire, or go to sleep. */
  function Park(s: Pool, w: nat): Pool
    requires w < |s.workers|
  {
    if s.exiting then SetWorker(s.(pol := Dec32(s.pol)), w, Exited, None)
    else if Overworking(s) then SetWorker(s.(ret := s.ret + [w], pol := Dec32(s.pol)), w, Retired, None)
    else SetWorker(s.(idl := Inc32(s.idl), pol := Dec32(s.pol), waiters := Inc32(s.waiters)), w, Waiting, None)
  }

  function Fetch(s: Pool, w: nat, top: Task): Pool
    requires w < |s.workers|
  {
    SetWorker(s.(queue := s.queue - multiset{top}), w, Running, Some(top))
  }

  /** The task in a worker's slot has been executed. */
  function Done(s: Pool, w: nat): (r: Pool)
    requires w < |s.workers|
    ensures r.workers == s.workers
  {
    match s.workers[w].slot
    case Some(t) => s.(done := s.done + multiset{t})
    case None => s
  }

  /** A worker comes back from its task. */
  function FinishTask(s: Pool, w: nat, top: Task): Pool
    requires w < |s.workers|
  {
    var s1 := Done(s, w);
    if !Overworking(s1) && s1.queue != multiset{} then Fetch(s1, w, top) else Park(s1, w)
  }

  function WakeWorker(s: Pool, w: nat): Pool
    requires w < |s.workers|
  {
    SetWorker(s.(waiters := Dec32(s.waiters), wakeups := Dec32(s.wakeups)), w, Woken(false), None)
  }

  function ExpireWorker(s: Pool, w: nat): Pool
    requires w < |s.workers|
  {
    SetWorker(s.(waiters := Dec32(s.waiters)), w, Woken(true), None)
  }

  /** A worker that left the condition gets the pool mutex back. */
  function RelockWorker(s: Pool, w: nat, top: Task): Pool
    requires w < |s.workers|
  {
    var s1 := s.(pol := Inc32(s.pol));
    if s.workers[w].mode == Woken(true) then
      SetWorker(s1.(idl := Dec32(s1.idl), ret := s1.ret + [w], pol := Dec32(s1.pol)), w, Retired, None)
    else if s1.queue != multiset{} then Fetch(s1, w, top)
    else Park(s1, w)
  }

  predicate Settled(s: Pool) {
    forall w :: 0 <= w < |s.workers| ==> s.workers[w].mode == Retired || s.workers[w].mode == Exited
  }

  function BeginWait(s: Pool): Pool {
    s.(exiting := true, wakeups := s.waiters, all := [])
  }

  function EndWait(s: Pool): Pool {
    s.(exiting := false, ret := [], pol := 0, idl := 0, workers := [])
  }

  predicate TopOf(s: Pool, top: Task) {
    s.queue != multiset{} ==> top in s.queue
  }

  predicate InMode(s: Pool, w: nat, m: Mode) {
    w < |s.workers| && s.workers[w].mode == m
  }

  predicate Enabled(s: Pool, e: Event) {
    match e
    case Start(_) => !s.exiting
    case StartNow(_, _) => !s.exiting
    case Reserve(_, top) => !s.exiting && TopOf(s, top)
    case Finish(w, top) => InMode(s, w, Running) && TopOf(s, top)
    case Wake(w) => InMode(s, w, Waiting) && s.wakeups > 0
    case TimeOut(w) => InMode(s, w, Waiting)
    case Relock(w, top) => (InMode(s, w, Woken(false)) || InMode(s, w, Woken(true))) && TopOf(s, top)
    case WaitBegin => !s.exiting
    case WaitEnd => s.exiting && Settled(s)
  }

  ghost function Step(s: Pool, e: Event): Pool
    requires Sound(s) && Enabled(s, e)
  {
    match e
    case Start(t) => StartTask(s, t)
    case StartNow(t, choked) => StartTaskNow(s, t, choked)
    case Reserve(count, top) => ReserveThreads(s, count, top)
    case Finish(w, top) => FinishTask(s, w, top)
    case Wake(w) => WakeWorker(s, w)
    case TimeOut(w) => ExpireWorker(s, w)
    case Relock(w, top) => RelockWorker(s, w, top)
    case WaitBegin => BeginWait(s)
    case WaitEnd => EndWait(s)
  }

  // ---------------------------------------------------------------------
  // Every step keeps the invariant

  lemma InitSound(maxThreads: nat)
    requires 1 <= maxThreads < 0x8000_0000
    ensures Sound(Init(maxThreads))
  {
  }

  /** The lists of retired workers and of slots after one worker moved. */
  lemma MoveKeepsLists(s: Pool, w: nat, next: Worker, ret: seq<nat>)
    requires Sound(s) && w < |s.workers| && s.workers[w].mode != Retired
    requires next.slot.Some? <==> next.mode == Running
    requires ret == if next.mode == Retired then s.ret + [w] else s.ret
    ensures RetiredListed(ret, s.workers[w := next]) && SlotsMatch(s.workers[w := next])
  {
    CountUpdate(s.workers, w, next, Retired);
    assert w !in s.ret;
  }

  /** One worker moves; the counters follow it. */
  lemma MoveSound(s: Pool, r: Pool, w: nat, next: Worker)
    requires Sound(s) && w < |s.workers| && s.workers[w].mode != Retired
    requires next.slot.Some? <==> next.mode == Running
    requires next.mode == Exited ==> s.exiting
    requires r == s.(idl := r.idl, wakeups := r.wakeups, pol := r.pol, waiters := r.waiters, ret := r.ret,
                     queue := r.queue, done := r.done, workers := s.workers[w := next])
    requires r.idl < TWO32 && r.wakeups < TWO32
    requires r.pol == s.pol - (if s.workers[w].mode == Running then 1 else 0) + if next.mode == Running then 1 else 0
    requires r.waiters == s.waiters - (if s.workers[w].mode == Waiting then 1 else 0)
                          + if next.mode == Waiting then 1 else 0
    requires r.ret == if next.mode == Retired then s.ret + [w] else s.ret
    requires forall t :: r.queue[t] + r.done[t] + Has(next, t) == s.queue[t] + s.done[t] + Has(s.workers[w], t)
    ensures Sound(r)
  {
    MoveKeepsLists(s, w, next, r.ret);
    forall t: Task {
      HeldUpdate(s.workers, w, next, t);
    }
    CountUpdate(s.workers, w, next, Waiting);
    CountUpdate(s.workers, w, next, Running);
    CountUpdate(s.workers, w, next, Exited);
  }

  /** What a worker becomes when it has no task in hand. */
  function Parked(s: Pool): Worker {
    Worker(if s.exiting then Exited else if Overworking(s) then Retired else Waiting, None)
  }

  lemma Bounds(s: Pool, w: nat)
    requires Sound(s) && w < |s.workers|
    ensures s.pol + s.waiters + |s.ret| <= |s.workers| <= s.maxThreads
    ensures s.workers[w].mode == Running ==> s.pol > 0
    ensures s.workers[w].mode == Waiting ==> s.waiters > 0
    ensures s.workers[w].mode.Woken? ==> s.pol + s.waiters + |s.ret| < |s.workers|
  {
    CountTotal(s.workers);
    CountMember(s.workers, w);
  }

  /** A worker takes the top of the queue. */
  lemma FetchSound(s: Pool, s1: Pool, w: nat, top: Task)
    requires Sound(s) && w < |s.workers| && (s.workers[w].mode == Running || s.workers[w].mode.Woken?)
    requires s1 == s.(pol := s.pol + (if s.workers[w].mode == Running then 0 else 1), done := s1.done)
    requires forall t :: s1.done[t] == s.done[t] + Has(s.workers[w], t)
    requires top in s.queue
    ensures Sound(Fetch(s1, w, top))
  {
    MoveSound(s, Fetch(s1, w, top), w, Worker(Running, Some(top)));
  }

  /** A worker with no task in hand exits, retires or goes to sleep. */
  lemma ParkSound(s: Pool, s1: Pool, w: nat)
    requires Sound(s) && w < |s.workers| && (s.workers[w].mode == Running || s.workers[w].mode.Woken?)
    requires s1 == s.(pol := s.pol + (if s.workers[w].mode == Running then 0 else 1), done := s1.done)
    requires forall t :: s1.done[t] == s.done[t] + Has(s.workers[w], t)
    ensures Sound(Park(s1, w))
  {
    Bounds(s, w);
    MoveSound(s, Park(s1, w), w, Parked(s1));
  }

  lemma FinishSound(s: Pool, w: nat, top: Task)
    requires Sound(s) && Enabled(s, Finish(w, top))
    ensures Sound(FinishTask(s, w, top))
  {
    var s1 := Done(s, w);
    if !Overworking(s1) && s1.queue != multiset{} {
      FetchSound(s, s1, w, top);
    } else {
      ParkSound(s, s1, w);
    }
  }

  lemma RelockSound(s: Pool, w: nat, top: Task)
    requires Sound(s) && Enabled(s, Relock(w, top))
    ensures Sound(RelockWorker(s, w, top))
  {
    Bounds(s, w);
    var s1 := s.(pol := Inc32(s.pol));
    if s.workers[w].mode == Woken(true) {
      MoveSound(s, RelockWorker(s, w, top), w, Worker(Retired, None));
    } else if s1.queue != multiset{} {
      FetchSound(s, s1, w, top);
    } else {
      ParkSound(s, s1, w);
    }
  }

  lemma LeaveSound(s: Pool, w: nat)
    requires Sound(s) && InMode(s, w, Waiting)
    ensures s.wakeups > 0 ==> Sound(WakeWorker(s, w))
    ensures Sound(ExpireWorker(s, w))
  {
    Bounds(s, w);
    if s.wakeups > 0 {
      MoveSound(s, WakeWorker(s, w), w, Worker(Woken(false), None));
    }
    MoveSound(s, ExpireWorker(s, w), w, Worker(Woken(true), None));
  }

  /** Taking the last entry off `ret_threads_` and running it. */
  lemma RestartKeepsLists(ret: seq<nat>, ws: seq<Worker>, next: Worker)
    requires RetiredListed(ret, ws) && SlotsMatch(ws) && ret != []
    requires next.mode == Running && next.slot.Some?
    ensures var last := |ret| - 1;
            && ret[last] < |ws| && ws[ret[last]].mode == Retired
            && RetiredListed(ret[..last], ws[ret[last] := next]) && SlotsMatch(ws[ret[last] := next])
  {
    var w := ret[|ret| - 1];
    assert w in ret && w !in ret[..|ret| - 1];
    assert ret == ret[..|ret| - 1] + [w];
    CountUpdate(ws, w, next, Retired);
  }

  lemma RestartSound(s: Pool, t: Task)
    requires Frame(s) && ConservedBut(s, t) && s.ret != []
    ensures s.ret[|s.ret| - 1] < |s.workers|
    ensures Sound(Restart(s, t))
  {
    var next := Worker(Running, Some(t));
    RestartKeepsLists(s.ret, s.workers, next);
    var w := s.ret[|s.ret| - 1];
    CountTotal(s.workers);
    CountUpdate(s.workers, w, next, Running);
    CountUpdate(s.workers, w, next, Waiting);
    CountUpdate(s.workers, w, next, Exited);
    forall u: Task {
      HeldUpdate(s.workers, w, next, u);
    }
  }

  lemma SpawnKeepsLists(ws: seq<Worker>, t: Task)
    requires RetiredListed([], ws) && SlotsMatch(ws)
    ensures RetiredListed([], ws + [Worker(Running, Some(t))]) && SlotsMatch(ws + [Worker(Running, Some(t))])
  {
    AppendWorker(ws, Worker(Running, Some(t)));
  }

  /** With nobody idle or retired, a pool that can start a task has room for a thread. */
  lemma RoomToSpawn(s: Pool)
    requires Frame(s) && !s.exiting && CanStart(s) && s.idl == 0 && s.ret == []
    ensures |s.workers| < s.maxThreads
  {
    assert Active(s) == |s.workers| + s.res;
  }

  lemma SpawnSound(s: Pool, t: Task)
    requires Frame(s) && ConservedBut(s, t) && !s.exiting && CanStart(s) && s.idl == 0 && s.ret == []
    ensures Sound(Spawn(s, t))
  {
    RoomToSpawn(s);
    SpawnKeepsLists(s.workers, t);
    AppendWorker(s.workers, Worker(Running, Some(t)));
    CountTotal(s.workers);
    var r := Spawn(s, t);
    assert r.all == Ids(|r.workers|);
    assert Conserved(r);
  }

  lemma EnqueueSound(s: Pool, t: Task)
    requires Frame(s) && ConservedBut(s, t)
    ensures Sound(Enqueue(s, t))
    ensures s.idl > 0 ==> Sound(Enqueue(s.(idl := s.idl - 1), t))
  {
    CountTotal(s.workers);
  }

  lemma PlaceSound(s: Pool, t: Task)
    requires Frame(s) && ConservedBut(s, t) && !s.exiting && CanStart(s)
    ensures s.ret != [] ==> s.ret[|s.ret| - 1] < |s.workers|
    ensures Sound(Place(s, t))
  {
    if s.idl > 0 {
      EnqueueSound(s, t);
    } else if s.ret != [] {
      RestartSound(s, t);
    } else {
      SpawnSound(s, t);
    }
  }

  lemma AcceptInHand(s: Pool, t: Task)
    requires Sound(s) && !s.exiting
    ensures Frame(Accept(s, t)) && ConservedBut(Accept(s, t), t)
    ensures !Accept(s, t).exiting && CanStart(Accept(s, t)) == CanStart(s)
  {
  }

  lemma TakeInHand(s: Pool, top: Task)
    requires Sound(s) && top in s.queue
    ensures var s1 := s.(queue := s.queue - multiset{top});
            Frame(s1) && ConservedBut(s1, top) && CanStart(s1) == CanStart(s)
  {
  }

  lemma StartSound(s: Pool, t: Task, choked: bool)
    requires Sound(s) && !s.exiting
    ensures Sound(StartTask(s, t)) && Sound(StartTaskNow(s, t, choked))
  {
    var s1 := Accept(s, t);
    AcceptInHand(s, t);
    hide Sound, Frame, ConservedBut, CanStart, Place, Enqueue;
    if CanStart(s1) {
      PlaceSound(s1, t);
    } else {
      EnqueueSound(s1, t);
    }
  }

  lemma SetReservedSound(s: Pool, count: nat)
    requires Sound(s)
    ensures Sound(SetReserved(s, count))
    ensures SetReserved(s, count).queue == s.queue && SetReserved(s, count).exiting == s.exiting
  {
  }

  lemma ReserveSound(s: Pool, count: nat, top: Task)
    requires Sound(s) && Enabled(s, Reserve(count, top))
    ensures Sound(ReserveThreads(s, count, top))
  {
    hide Sound, Frame, ConservedBut, CanStart, Place, SetReserved;
    SetReservedSound(s, count);
    var s1 := SetReserved(s, count);
    if count < s.res && s.queue != multiset{} && CanStart(s1) {
      TakeInHand(s1, top);
      PlaceSound(s1.(queue := s1.queue - multiset{top}), top);
    }
  }

  lemma BeginWaitSound(s: Pool)
    requires Sound(s) && !s.exiting
    ensures Sound(BeginWait(s))
  {
    CountTotal(s.workers);
  }

  lemma EndWaitSound(s: Pool)
    requires Sound(s) && s.exiting && Settled(s)
    ensures Sound(EndWait(s))
  {
    forall t: Task {
      NothingHeld(s.workers, t);
    }
    if s.waiters > 0 {
      var w := FindMode(s.workers, Waiting);
    }
  }

  lemma StepSound(s: Pool, e: Event)
    requires Sound(s) && Enabled(s, e)
    ensures Sound(Step(s, e))
  {
    hide Sound, Frame, StartTask, StartTaskNow, ReserveThreads, FinishTask, RelockWorker;
    match e
    case Start(t) => StartSound(s, t, false);
    case StartNow(t, choked) => StartSound(s, t, choked);
    case Reserve(count, top) => ReserveSound(s, count, top);
    case Finish(w, top) => FinishSound(s, w, top);
    case Wake(w) => LeaveSound(s, w);
    case TimeOut(w) => LeaveSound(s, w);
    case Relock(w, top) => RelockSound(s, w, top);
    case WaitBegin => BeginWaitSound(s);
    case WaitEnd => EndWaitSound(s);
  }

  /** Nothing was taken back: what was accepted or done stays so. */
  predicate Onward(s: Pool, r: Pool) {
    s.accepted <= r.accepted && s.done <= r.done
  }

  /** What only `wait()` changes, or nothing at all, and an onward history. */
  predicate SameShell(s: Pool, r: Pool) {
    r.maxThreads == s.maxThreads && r.exiting == s.exiting && Onward(s, r)
  }

  lemma PlaceKeepsShell(s: Pool, t: Task)
    requires s.ret != [] ==> s.ret[|s.ret| - 1] < |s.workers|
    ensures SameShell(s, Place(s, t)) && SameShell(s, Enqueue(s, t)) && SameShell(s, Accept(s, t))
  {
  }

  lemma WorkerKeepsShell(s: Pool, w: nat, top: Task)
    requires w < |s.workers|
    ensures SameShell(s, Park(s, w)) && SameShell(s, Fetch(s, w, top)) && SameShell(s, Done(s, w))
  {
  }

  lemma ShellTwice(s: Pool, r: Pool, q: Pool)
    requires SameShell(s, r) && SameShell(r, q)
    ensures SameShell(s, q)
  {
  }

  lemma LastRetired(s: Pool)
    requires Sound(s) && s.ret != []
    ensures s.ret[|s.ret| - 1] < |s.workers|
  {
  }

  /** A task in hand is placed or put in the queue. */
  lemma HandedOnKeepsShell(s: Pool, s1: Pool, t: Task)
    requires SameShell(s, s1) && (s1.ret != [] ==> s1.ret[|s1.ret| - 1] < |s1.workers|)
    ensures SameShell(s, Place(s1, t)) && SameShell(s, Enqueue(s1, t))
  {
    hide SameShell, Place, Enqueue;
    PlaceKeepsShell(s1, t);
    ShellTwice(s, s1, Place(s1, t));
    ShellTwice(s, s1, Enqueue(s1, t));
  }

  lemma CallKeepsShell(s: Pool, e: Event)
    requires Sound(s) && Enabled(s, e)
    requires e.Start? || e.StartNow? || e.Reserve?
    ensures SameShell(s, Step(s, e))
  {
    hide Sound, Place, Enqueue, CanStart;
    if s.ret != [] {
      LastRetired(s);
    }
    match e
    case Start(t) => HandedOnKeepsShell(s, Accept(s, t), t);
    case StartNow(t, choked) => HandedOnKeepsShell(s, Accept(s, t), t);
    case Reserve(count, top) => HandedOnKeepsShell(s, SetReserved(s, count).(queue := s.queue - multiset{top}), top);
  }

  lemma WorkerStepKeepsShell(s: Pool, e: Event)
    requires Sound(s) && Enabled(s, e)
    requires e.Finish? || e.Wake? || e.TimeOut? || e.Relock?
    ensures SameShell(s, Step(s, e))
  {
    hide Sound, Park, Fetch, Done, Overworking;
    match e
    case Finish(w, top) =>
      WorkerKeepsShell(s, w, top);
      WorkerKeepsShell(Done(s, w), w, top);
    case Relock(w, top) => WorkerKeepsShell(s.(pol := Inc32(s.pol)), w, top);
    case _ =>
  }

  lemma StepKeepsShell(s: Pool, e: Event)
    requires Sound(s) && Enabled(s, e)
    ensures Step(s, e).maxThreads == s.maxThreads && Onward(s, Step(s, e))
    ensures !e.WaitBegin? && !e.WaitEnd? ==> Step(s, e).exiting == s.exiting
  {
    hide Sound, StartTask, StartTaskNow, ReserveThreads, FinishTask, RelockWorker;
    if e.Start? || e.StartNow? || e.Reserve? {
      CallKeepsShell(s, e);
    } else if !e.WaitBegin? && !e.WaitEnd? {
      WorkerStepKeepsShell(s, e);
    }
  }

  // ---------------------------------------------------------------------
  // Runs

  /** Each event is possible in the state that the earlier ones lead to. */
  ghost predicate Legal(s: Pool, run: seq<Event>)
    requires Sound(s)
    decreases run
  {
    run == [] || (Enabled(s, run[0]) && (StepSound(s, run[0]); Legal(Step(s, run[0]), run[1..])))
  }

  /** The state after a run: always sound, with no assumption on the run. */
  ghost function Exec(s: Pool, run: seq<Event>): (r: Pool)
    requires Sound(s) && Legal(s, run)
    ensures Sound(r) && r.maxThreads == s.maxThreads && Onward(s, r)
    decreases run
  {
    if run == [] then s else StepSound(s, run[0]); StepKeepsShell(s, run[0]); Exec(Step(s, run[0]), run[1..])
  }

  /** One event in front of a run. */
  lemma Before(s: Pool, e: Event, s1: Pool, rest: seq<Event>, r: Pool)
    requires Sound(s) && Enabled(s, e) && Step(s, e) == s1
    requires Sound(s1) && Legal(s1, rest) && Exec(s1, rest) == r
    ensures Legal(s, [e] + rest) && Exec(s, [e] + rest) == r
  {
    assert ([e] + rest)[0] == e && ([e] + rest)[1..] == rest;
  }

  /** The first event of a run. */
  lemma First(s: Pool, run: seq<Event>)
    requires Sound(s) && Legal(s, run) && run != []
    ensures Enabled(s, run[0]) && Sound(Step(s, run[0])) && Legal(Step(s, run[0]), run[1..])
    ensures Exec(s, run) == Exec(Step(s, run[0]), run[1..])
  {
    hide Sound, Enabled, Step;
    StepSound(s, run[0]);
  }

  lemma NoEvents(s: Pool)
    requires Sound(s)
    ensures Legal(s, []) && Exec(s, []) == s
  {
  }

  /** A run can be interrupted anywhere. */
  lemma {:induction false} ExecSplits(s: Pool, run: seq<Event>, k: nat)
    requires Sound(s) && Legal(s, run) && k <= |run|
    ensures Legal(s, run[..k]) && Legal(Exec(s, run[..k]), run[k..])
    ensures Exec(Exec(s, run[..k]), run[k..]) == Exec(s, run)
    decreases k
  {
    hide Sound, Step, Enabled, Legal, Exec;
    if k == 0 {
      assert run[k..] == run && run[..k] == [];
      NoEvents(s);
    } else {
      First(s, run);
      var s1, rest := Step(s, run[0]), run[1..];
      ExecSplits(s1, rest, k - 1);
      Before(s, run[0], s1, rest[..k - 1], Exec(s1, rest[..k - 1]));
      assert run[..k] == [run[0]] + rest[..k - 1] && run[k..] == rest[k - 1..];
    }
  }

  /** A run can be continued. */
  lemma {:induction false} ExecJoins(s: Pool, a: seq<Event>, b: seq<Event>)
    requires Sound(s) && Legal(s, a) && Legal(Exec(s, a), b)
    ensures Legal(s, a + b) && Exec(s, a + b) == Exec(Exec(s, a), b)
    decreases a
  {
    hide Sound, Step, Enabled, Legal, Exec;
    if a == [] {
      NoEvents(s);
      assert a + b == b;
    } else {
      First(s, a);
      var s1 := Step(s, a[0]);
      ExecJoins(s1, a[1..], b);
      Before(s, a[0], s1, a[1..] + b, Exec(s1, a[1..] + b));
      assert a + b == [a[0]] + (a[1..] + b);
    }
  }

  /**
   The bound of the pool and the conservation of tasks, at every moment of every
   run with reservations, timeouts and signals of any kind; and what was done at
   that moment stays done.
   */
  lemma EveryRunIsSafe(maxThreads: nat, run: seq<Event>, k: nat)
    requires 1 <= maxThreads < 0x8000_0000
    requires Legal(Init(maxThreads), run) && k <= |run|
    ensures Legal(Init(maxThreads), run[..k])
    ensures var r := Exec(Init(maxThreads), run[..k]);
            && |r.all| <= maxThreads && r.res <= maxThreads
            && (forall t: Task :: r.accepted[t] == r.queue[t] + Held(r.workers, t) + r.done[t])
            && (forall w :: 0 <= w < |r.workers| ==> (r.workers[w].slot.Some? <==> r.workers[w].mode == Running))
            && r.pol == Count(r.workers, Running) && r.waiters == Count(r.workers, Waiting)
            && Onward(r, Exec(Init(maxThreads), run))
  {
    hide Legal, Exec;
    InitSound(maxThreads);
    ExecSplits(Init(maxThreads), run, k);
  }
}
