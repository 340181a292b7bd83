/** The scheduler's own code: globals updated in place, each routine proved against the transition system. */
module Scheduler {
  import opened Lists
  import opened SchedModel
  import opened SchedInvariant
  import opened Clock
  import opened Options

  /** The state after the scan has stopped at `t`. */
  ghost function Taken(s: State, t: Tid): State {
    var th := if s.Thr(t).runnable then s.Thr(t) else s.Thr(t).(timedOut := true).Woken();
    s.Put(t, th).(runList := Remove(s.runList, t) + [t])
  }

  /** The state after switching to `t` and reaping on its stack. */
  ghost function Switched(s: State, t: Tid): State {
    var th := s.Thr(t);
    var frame := if th.frame.Fresh? || th.frame.Parked? then User else th.frame;
    var s' := s.Put(t, th.(frame := frame)).(current := t, inSched := false);
    if th.frame.Fresh? then s' else s'.Reap(t)
  }

  lemma ChooseInParts(s: State, tm: int)
    requires s.HasReady(tm)
    ensures s.Choose(tm) == Switched(Taken(s, s.Next(tm)), s.Next(tm))
  {
    hide State.Reap, State.Next, State.HasReady, Remove;
    var t := s.Next(tm);
    var s1 := Taken(s, t);
    assert s1.threads[t := s.Dispatched(s.Thr(t))] == s.threads[t := s.Dispatched(s.Thr(t))];
  }

  /** The globals of thread.c, and every thread's structure. */
  class Globals {
    var threads: map<Tid, Thread>
    var runList: seq<Tid>
    var exited: seq<Tid>
    ghost var freed: set<Tid>
    var current: Tid
    ghost var inSched: bool
    var joinq: seq<JoinWaiter>
    var queues: map<Queue, seq<Tid>>
    var mutexes: map<nat, Mutex>

    ghost function Model(): State
      reads this
    {
      State(threads, runList, exited, freed, current, inSched, joinq, queues, mutexes)
    }

    function Thr(t: Tid): Thread
      reads this
    {
      if t in threads then threads[t] else NoThread
    }

    function Mtx(m: nat): Mutex
      reads this
    {
      if m in mutexes then mutexes[m] else Mutex(0, 0)
    }

    /** init_sched() */
    constructor ()
      ensures Model() == Init
    {
      threads := map[0 := Thread(true, false, false, false, NEVER, 0, User)];
      runList, exited, joinq := [0], [], [];
      freed, inSched := {}, false;
      current := 0;
      queues, mutexes := map[], map[];
    }

    method Wake(t: Tid)
      modifies this`threads
      ensures Model() == old(Model()).Wake(t)
    {
      threads := threads[t := Thr(t).(wakeup := NEVER, runnable := true)];
    }

    /** Leaving the running thread's code for schedule(), parked in frame `f`. */
    method Suspend(f: Frame)
      modifies this`threads, this`inSched
      ensures Model() == old(Model()).Suspend(old(Thr(current)), f)
    {
      threads := threads[current := Thr(current).(frame := f)];
      inSched := true;
    }

    /** absnanosleep() and its relatives. */
    method SleepUntil(deadline: int)
      modifies this`threads, this`inSched
      ensures Model() == old(Model()).Suspend(old(Thr(current)).(runnable := false, wakeup := deadline), Parked)
    {
      threads := threads[current := Thr(current).(runnable := false, wakeup := deadline, frame := Parked)];
      inSched := true;
    }

    method Back()
      modifies this`threads
      ensures Model() == old(Model()).Back()
    {
      threads := threads[current := Thr(current).(frame := User)];
    }

    // ----- wait queues -----

    function Q(q: Queue): seq<Tid>
      reads this
    {
      QueueOf(queues, q)
    }

    /** wait() up to its call of schedule(); `deadline` is NEVER without a timeout. */
    method WaitBegin(q: Queue, deadline: int, after: After)
      modifies this`threads, this`queues, this`inSched
      ensures Model() == old(Model()).WaitOn(q, deadline, after)
    {
      queues := queues[q := Q(q) + [current]];
      var th := Thr(current).(runnable := false, wakeup := deadline, frame := Waiting(q, true, after));
      threads := threads[current := th];
      inSched := true;
    }

    /** wait() after schedule() returns: true for 0, false for ETIMEDOUT. */
    method WaitEnd() returns (woken: bool)
      requires Thr(current).frame.Waiting?
      modifies this`threads, this`queues
      ensures Model() == old(Model()).FinishWait()
      ensures woken == !old(Thr(current).frame.onlist)
    {
      var Waiting(q, onlist, _) := Thr(current).frame;
      if onlist {
        queues := queues[q := Remove(Q(q), current)];
      }
      Back();
      woken := !onlist;
    }

    method WakeupOne(q: Queue)
      modifies this`threads, this`queues
      ensures Model() == old(Model()).WakeupOne(q)
    {
      if Q(q) != [] {
        var w := Q(q)[0];
        queues := queues[q := Q(q)[1..]];
        threads := threads[w := Thr(w).Woken().(frame := Thr(w).frame.Popped())];
      }
    }

    method WakeupAll(q: Queue)
      modifies this`threads, this`queues
      ensures Model() == old(Model()).WakeupAll(q)
    {
      while Q(q) != []
        invariant Model().WakeupAll(q) == old(Model()).WakeupAll(q)
        decreases |Q(q)|
      {
        WakeupOne(q);
      }
    }

    // ----- mutexes -----

    method MutexTryEnter(m: nat) returns (busy: bool)
      modifies this`mutexes
      ensures Model() == old(Model()).TryEnter(m)
      ensures busy == !old(Model()).CanEnter(m)
    {
      var l := Thr(current).lwp;
      if Mtx(m).v != 0 && Mtx(m).o != l {
        return true;
      }
      mutexes := mutexes[m := Mutex(Mtx(m).v + 1, l)];
      busy := false;
    }

    /** mutex_enter() up to its return or its next call of schedule(). */
    method MutexEnter(m: nat)
      modifies this`threads, this`queues, this`mutexes, this`inSched
      ensures Model() == old(Model()).Enter(m)
    {
      var busy := MutexTryEnter(m);
      if busy {
        WaitBegin(OfMutex(m), NEVER, Retry(m));
      }
    }

    method MutexExit(m: nat)
      requires Mtx(m).v > 0
      modifies this`threads, this`queues, this`mutexes
      ensures Model() == old(Model()).Leave(m)
    {
      var v := Mtx(m).v - 1;
      if v == 0 {
        mutexes := mutexes[m := Mutex(0, 0)];
        WakeupOne(OfMutex(m));
      } else {
        mutexes := mutexes[m := Mutex(v, Mtx(m).o)];
      }
    }

    // ----- threads -----

    method CreateThread(t: Tid, joinable: bool)
      modifies this`threads, this`runList
      ensures Model() == old(Model()).Create(t, joinable)
    {
      threads := threads[t := Thread(true, joinable, false, false, NEVER, 0, Fresh)];
      runList := runList + [t];
    }

    /** One turn of join_thread(): release an arrived thread, or go to sleep for it. */
    method JoinThread(j: Tid)
      modifies this`threads, this`joinq, this`inSched
      ensures Model() == old(Model()).Join(j)
    {
      if Thr(j).joined {
        threads := threads[j := Thr(j).(mustJoin := false).Woken()];
      } else {
        joinq := joinq + [JoinWaiter(current, j)];
        threads := threads[current := Thr(current).Blocked().(frame := Joining(j))];
        inSched := true;
      }
    }

    /** Waking the first joiner recorded for `t`. */
    method WakeJoiner(t: Tid)
      modifies this`threads
      ensures Model() == old(Model()).WakeJoiner(t)
    {
      for i := 0 to |joinq|
        invariant Model() == old(Model())
        invariant forall k | 0 <= k < i :: joinq[k].wanted != t
      {
        if joinq[i].wanted == t {
          assert i == Model().JoinerOf(t);
          Wake(joinq[i].thread);
          return;
        }
      }
    }

    /** One turn of exit_thread(): wait at the gate, or go onto the exited list. */
    method ExitThread()
      modifies this`threads, this`runList, this`exited, this`inSched
      ensures Model() == old(Model()).Exit()
    {
      if Thr(current).mustJoin {
        threads := threads[current := Thr(current).(joined := true)];
        WakeJoiner(current);
        threads := threads[current := Thr(current).Blocked().(frame := ExitGate)];
      } else {
        runList := Remove(runList, current);
        exited := [current] + exited;
        threads := threads[current := Thr(current).(runnable := false, frame := Gone)];
      }
      inSched := true;
    }

    /** The running thread carries on inside the call that had parked it. */
    method Resume()
      requires Inv(Model()) && Enabled(Model(), SchedModel.Resume)
      modifies this
      ensures Model() == old(Model()).Resume()
    {
      hide Inv;
      match Thr(current).frame {
        case Waiting(_, _, after) =>
          var _ := WaitEnd();
          if after.Retry? {
            MutexEnter(after.m);
          } else if after.Reacquire? {
            var _ := MutexTryEnter(after.m);
          }
        case Joining(j) =>
          joinq := Remove(joinq, JoinWaiter(current, j));
          Back();
          JoinThread(j);
        case ExitGate =>
          ExitThread();
        case _ =>
      }
    }

    // ----- schedule() -----

    /** What the scan does with the thread it stops at. */
    method Take(t: Tid)
      modifies this`threads, this`runList
      ensures Model() == Taken(old(Model()), t)
    {
      if !Thr(t).runnable {
        threads := threads[t := Thr(t).(timedOut := true)];
        Wake(t);
      }
      runList := Remove(runList, t) + [t];
    }

    /**
     * The scan of the run list at reading `tm`. The first ready thread is made runnable and put
     * at the end of the list; without one nothing changes and `wakeup` is the next thing to wait for.
     */
    method Scan(tm: int) returns (next: Option<Tid>, wakeup: int)
      modifies this`threads, this`runList
      ensures next.Some? == old(Model()).HasReady(tm)
      ensures next.Some? ==>
        next.value == old(Model()).Next(tm) && Model() == Taken(old(Model()), next.value)
      ensures next.None? ==> Model() == old(Model()) && tm < wakeup <= tm + MAX_IDLE
      ensures next.None? ==> forall w | old(Model()).HasReady(w) :: wakeup <= w
    {
      wakeup := tm + MAX_IDLE;
      ghost var s := Model();
      var i := 0;
      while i < |runList|
        invariant 0 <= i <= |s.runList| && Model() == s
        invariant forall k | 0 <= k < i :: !s.Thr(s.runList[k]).ReadyAt(tm)
        invariant forall k | 0 <= k < i && s.Thr(s.runList[k]).wakeup >= 0 :: wakeup <= s.Thr(s.runList[k]).wakeup
        invariant tm < wakeup <= tm + MAX_IDLE
      {
        var th := Thr(runList[i]);
        if th.runnable || 0 <= th.wakeup <= tm {
          assert i == s.FirstReady(tm);
          next := Some(runList[i]);
          Take(runList[i]);
          return;
        }
        if 0 <= th.wakeup < wakeup {
          wakeup := th.wakeup;
        }
        i := i + 1;
      }
      next := None;
    }

    /** The loop that frees exited threads, run with the resumed thread's own `prev`. */
    method ReapExited(prev: Tid)
      requires NoDup(exited)
      modifies this`exited, this`threads, this`freed
      ensures Model() == old(Model()).Reap(prev)
    {
      hide Others, Only;
      OthersNone(prev);
      ghost var s, gone := Model(), {};
      var rest, kept := exited, [];
      while rest != []
        invariant exited == s.exited && threads == s.threads - gone && freed == s.freed + gone
        invariant gone + Others(rest, prev) == Others(s.exited, prev)
        invariant kept + Only(rest, prev) == Only(s.exited, prev)
      {
        var t := rest[0];
        OthersHead(rest, prev);
        rest := rest[1..];
        if t != prev {
          SubtractTwice(s.threads, gone, t);
          threads := threads - {t};
          freed := freed + {t};
          gone := gone + {t};
        } else {
          kept := kept + [t];
        }
      }
      exited := kept;
    }

    /** switch_threads() and what follows it on the new thread's stack. */
    method SwitchTo(next: Tid)
      requires NoDup(exited) && next !in exited
      modifies this`threads, this`current, this`exited, this`freed, this`inSched
      ensures Model() == Switched(old(Model()), next)
    {
      var th := Thr(next);
      current := next;
      inSched := false;
      if th.frame.Fresh? || th.frame.Parked? {
        threads := threads[next := th.(frame := User)];
      } else {
        threads := threads[next := th];
      }
      if !th.frame.Fresh? {
        ReapExited(next);
      }
    }

    /** One turn of the loop in schedule(): switch to the first ready thread, if there is one. */
    method TryOnce(tm: int) returns (found: bool, wakeup: int)
      requires Inv(Model()) && inSched
      modifies this
      ensures found == old(Model()).HasReady(tm)
      ensures found ==> Model() == old(Model()).Choose(tm)
      ensures !found ==> Model() == old(Model()) && tm < wakeup <= tm + MAX_IDLE
      ensures !found ==> forall w | old(Model()).HasReady(w) :: wakeup <= w
    {
      ghost var s := Model();
      var next, wk := Scan(tm);
      found, wakeup := next.Some?, wk;
      if next.Some? {
        NextIsListed(s, tm);
        hide Inv, Switched, State.Choose;
        SwitchTo(next.value);
        ChooseInParts(s, tm);
      }
    }

    /**
     * schedule() on the deterministic clock, watched for `turns` turns of its loop. It returns within
     * them if a thread is runnable or has a deadline they reach, and it never returns, having changed
     * nothing, if no thread is or has. The thread it picks is ready at the last reading; every sleep it
     * asks for is normal and at most a millisecond; and it overshoots any moment at which a thread was
     * ready by no more than a millisecond.
     */
    method Schedule(clock: DeterministicClock, turns: nat) returns (chosen: bool, tm: int, ghost sleeps: seq<Timespec>)
      requires Inv(Model()) && inSched && clock.now.Normal()
      modifies this, clock
      ensures chosen ==> old(Model()).HasReady(tm) && Model() == old(Model()).Choose(tm)
      ensures chosen ==> clock.now.Nanos() == tm >= old(clock.now.Nanos()) + TICK
      ensures chosen ==> forall w | old(Model()).HasReady(w) ::
        tm <= (if w < old(clock.now.Nanos()) then old(clock.now.Nanos()) else w) + TICK
      ensures chosen ==> forall w | EarliestDeadline(old(Model()), w) && old(clock.now.Nanos()) <= w ::
        w <= tm <= w + TICK
      ensures !chosen ==> Model() == old(Model()) && |sleeps| == turns
      ensures !chosen ==> forall w | old(Model()).HasReady(w) ::
        old(clock.now.Nanos()) + turns * TICK <= w || turns == 0
      ensures chosen ==> exists t | t in old(runList) :: old(Thr(t).runnable || Thr(t).wakeup >= 0)
      ensures clock.now.Normal() && forall d | d in sleeps :: d.Normal() && 0 < d.Nanos() <= MAX_IDLE
    {
      hide Inv;
      ghost var s, start := Model(), clock.now.Nanos();
      sleeps, tm, chosen := [], 0, false;
      for i := 0 to turns
        invariant Model() == s && !chosen && clock.now.Normal() && start + i * TICK <= clock.now.Nanos()
        invariant |sleeps| == i
        invariant forall w | s.HasReady(w) :: clock.now.Nanos() <= (if w < start then start else w)
        invariant forall d | d in sleeps :: d.Normal() && 0 < d.Nanos() <= MAX_IDLE
      {
        var ts, _ := clock.GetTime(true);
        tm := ts.value.Nanos();
        var found, wakeup := TryOnce(tm);
        if found {
          forall w | EarliestDeadline(s, w) ensures s.HasReady(w) && w <= tm { PicksExpired(s, tm, w); }
          ReturnsExactlyWhen(s);
          return true, tm, sleeps;
        }
        ghost var sl := Idle(clock, tm, wakeup);
        sleeps := sleeps + [sl];
      }
    }

    /** schedule() returns, with the choice, whenever some thread is ready at some time. */
    method ScheduleReturns(clock: DeterministicClock, w: int) returns (tm: int, ghost sleeps: seq<Timespec>)
      requires Inv(Model()) && inSched && clock.now.Normal() && Model().HasReady(w)
      modifies this, clock
      ensures old(Model()).HasReady(tm) && Model() == old(Model()).Choose(tm) && clock.now.Nanos() == tm
      ensures old(clock.now.Nanos()) + TICK <= tm
      ensures tm <= (if w < old(clock.now.Nanos()) then old(clock.now.Nanos()) else w) + TICK
      ensures forall e | EarliestDeadline(old(Model()), e) && old(clock.now.Nanos()) <= e :: e <= tm <= e + TICK
      ensures clock.now.Normal() && forall d | d in sleeps :: d.Normal() && 0 < d.Nanos() <= MAX_IDLE
    {
      hide Inv;
      var ahead := w - clock.now.Nanos();
      var turns := if ahead < 0 then 1 else ahead / TICK + 1;
      var chosen;
      chosen, tm, sleeps := Schedule(clock, turns);
    }
  }

  /** Any event carried out by the code is the step of the transition system, and keeps the invariant. */
  method Perform(g: Globals, e: Event)
    requires Inv(g.Model()) && Enabled(g.Model(), e)
    modifies g
    ensures g.Model() == Apply(old(g.Model()), e) && Inv(g.Model())
  {
    hide Inv, State.Create, State.WakeupOne, State.WakeupAll, State.TryEnter, State.Enter, State.Leave, State.WaitOn,
      State.Suspend, State.Join, State.Exit, State.Choose, State.Resume, State.Wake;
    StepKeeps(g.Model(), e);
    match e {
      case Create(t, joinable) => g.CreateThread(t, joinable);
      case SetLwp(l) => g.threads := g.threads[g.current := g.Thr(g.current).(lwp := l)];
      case Wake(t) => g.Wake(t);
      case Signal(c) => g.WakeupOne(OfCv(c));
      case Broadcast(c) => g.WakeupAll(OfCv(c));
      case TryEnter(m) => var _ := g.MutexTryEnter(m);
      case Enter(m) => g.MutexEnter(m);
      case Leave(m) => g.MutexExit(m);
      case Wait(c, d) => g.WaitBegin(OfCv(c), d, Return);
      case CvWait(c, m, d) =>
        g.MutexExit(m);
        g.WaitBegin(OfCv(c), d, Reacquire(m));
      case Yield => g.Suspend(Parked);
      case Sleep(d) => g.SleepUntil(d);
      case Join(j) => g.JoinThread(j);
      case Exit => g.ExitThread();
      case Choose(tm) => var _, _ := g.TryOnce(tm);
      case Resume => g.Resume();
    }
  }

  /** The sleep of one idle turn. */
  method Idle(clock: DeterministicClock, tm: int, wakeup: int) returns (ghost sl: Timespec)
    requires clock.now.Normal() && tm < wakeup <= tm + MAX_IDLE
    modifies clock
    ensures sl.Normal() && sl.Nanos() == wakeup - tm
    ensures clock.now.Normal() && clock.now.Nanos() == old(clock.now.Nanos()) + (wakeup - tm)
  {
    var sec := (wakeup - tm) / NSEC_PER_SEC;
    var request := Timespec(sec, (wakeup - tm) - NSEC_PER_SEC * sec);
    var _ := clock.NanoSleep(Some(request));
    sl := request;
  }

  /** schedule() can return exactly when some listed thread is runnable or has a deadline. */
  lemma ReturnsExactlyWhen(s: State)
    ensures (exists w :: s.HasReady(w)) <==> exists t | t in s.runList :: s.Thr(t).runnable || s.Thr(t).wakeup >= 0
  {
    if t :| t in s.runList && (s.Thr(t).runnable || s.Thr(t).wakeup >= 0) {
      assert s.Thr(t).ReadyAt(s.Thr(t).wakeup) || s.Thr(t).runnable;
      var i :| 0 <= i < |s.runList| && s.runList[i] == t;
      assert s.HasReady(s.Thr(t).wakeup);
    }
    if w :| s.HasReady(w) {
      assert s.runList[s.FirstReady(w)] in s.runList;
    }
  }

  /** Nothing is runnable and `w` is the first deadline. */
  ghost predicate EarliestDeadline(s: State, w: int) {
    && w >= 0
    && (exists t :: t in s.runList && s.Thr(t).wakeup == w)
    && forall t | t in s.runList :: !s.Thr(t).runnable && (s.Thr(t).wakeup >= 0 ==> w <= s.Thr(t).wakeup)
  }

  /** With nothing runnable, what is picked has expired, and not before the earliest deadline. */
  lemma PicksExpired(s: State, tm: int, w: int)
    requires EarliestDeadline(s, w) && s.HasReady(tm)
    ensures w <= s.Thr(s.Next(tm)).wakeup <= tm
    ensures s.HasReady(w)
  {
    assert s.Next(tm) in s.runList;
    var t :| t in s.runList && s.Thr(t).wakeup == w;
    var i :| 0 <= i < |s.runList| && s.runList[i] == t;
    assert s.Thr(s.runList[i]).ReadyAt(w);
  }

  lemma OthersHead(l: seq<Tid>, prev: Tid)
    requires l != []
    ensures Others(l, prev) == (if l[0] == prev then {} else {l[0]}) + Others(l[1..], prev)
    ensures Only(l, prev) == (if l[0] == prev then [prev] else []) + Only(l[1..], prev)
  {
    assert l == [l[0]] + l[1..];
  }

  lemma OthersNone(prev: Tid)
    ensures Others([], prev) == {} && Only([], prev) == []
  {
  }

  lemma SubtractTwice(m: map<Tid, Thread>, gone: set<Tid>, t: Tid)
    ensures (m - gone) - {t} == m - (gone + {t})
  {
  }

  lemma NextIsListed(s: State, tm: int)
    requires Inv(s) && s.HasReady(tm)
    ensures NoDup(s.exited) && s.Next(tm) !in s.exited
  {
  }
}
