/**
 * Wait queues over whole runs: every removal by wakeup_one() or wakeup_all() makes exactly one
 * wait() return 0, every other wait() returns ETIMEDOUT, and removals are first in, first out.
 */
module SchedWaits {
  import opened Lists
  import opened SchedModel
  import opened SchedInvariant

  /** The queue that the step wakes one thread of, or all threads of. */
  predicate WakesOne(s: State, e: Event, q: Queue) {
    || (e.Signal? && q == OfCv(e.c))
    || ((e.Leave? || e.CvWait?) && q == OfMutex(e.m) && s.Mtx(e.m).v == 1)
  }

  predicate WakesAll(e: Event, q: Queue) {
    e.Broadcast? && q == OfCv(e.c)
  }

  /** How many threads the step takes off `q` by a wakeup. */
  function Removals(s: State, e: Event, q: Queue): nat {
    if WakesAll(e, q) then |s.Q(q)|
    else if WakesOne(s, e, q) && s.Q(q) != [] then 1
    else 0
  }

  /** Those are the first ones. */
  predicate Removes(s: State, e: Event, q: Queue, t: Tid) {
    (WakesAll(e, q) && t in s.Q(q)) || (WakesOne(s, e, q) && s.Q(q) != [] && t == s.Q(q)[0])
  }

  /** `t` returns from wait() on `q` in this step, with result 0 or with ETIMEDOUT. */
  predicate Returns(s: State, e: Event, q: Queue, t: Tid, zero: bool) {
    e.Resume? && s.current == t && s.Cur().frame.Waiting? && s.Cur().frame.q == q && s.Cur().frame.onlist == !zero
  }

  /** Taken off `q` but not yet returned from wait(). */
  predicate Pending(s: State, q: Queue, t: Tid) {
    s.Thr(t).frame.Waiting? && s.Thr(t).frame.q == q && !s.Thr(t).frame.onlist
  }

  function B(b: bool): nat {
    if b then 1 else 0
  }

  // ----- the effect of a step on one waiter -----

  lemma WakeupOneTurns(s: State, q: Queue, q': Queue, t: Tid)
    requires Inv(s)
    ensures s.WakeupOne(q).Q(q') == if q == q' && s.Q(q) != [] then s.Q(q)[1..] else s.Q(q')
    ensures Pending(s.WakeupOne(q), q', t) <==> Pending(s, q', t) || (q == q' && s.Q(q) != [] && t == s.Q(q)[0])
    ensures s.WakeupOne(q).current == s.current && s.WakeupOne(q).inSched == s.inSched
  {
    if s.Q(q) != [] {
      assert s.Q(q)[0] in s.Q(q);
    }
  }

  lemma {:induction false} WakeupAllTurns(s: State, q: Queue, q': Queue, t: Tid)
    requires Inv(s)
    ensures s.WakeupAll(q).Q(q') == if q == q' then [] else s.Q(q')
    ensures Pending(s.WakeupAll(q), q', t) <==> Pending(s, q', t) || (q == q' && t in s.Q(q))
    decreases |s.Q(q)|
  {
    hide Inv, State.WakeupOne, Pending;
    if s.Q(q) != [] {
      WakeupOneTurns(s, q, q', t);
      WakeupOneTurns(s, q, q, t);
      WakeupOneKeeps(s, q);
      assert s.Q(q) == [s.Q(q)[0]] + s.Q(q)[1..];
      WakeupAllTurns(s.WakeupOne(q), q, q', t);
    }
  }

  lemma LeaveTurns(s: State, m: nat, q: Queue, t: Tid)
    requires Inv(s) && Free(s) && s.Mtx(m).v > 0
    ensures Inv(s.Leave(m)) && Free(s.Leave(m)) && s.Leave(m).current == s.current
    ensures s.Leave(m).Q(q) == if WakesOne(s, Leave(m), q) && s.Q(q) != [] then s.Q(q)[1..] else s.Q(q)
    ensures Pending(s.Leave(m), q, t) <==> Pending(s, q, t) || Removes(s, Leave(m), q, t)
  {
    LeaveKeeps(s, m);
    if s.Mtx(m).v == 1 {
      WakeupOneTurns(s.(mutexes := s.mutexes[m := Mutex(0, 0)]), OfMutex(m), q, t);
    }
  }

  lemma WaitTurns(s: State, q': Queue, d: int, after: After, q: Queue, t: Tid)
    requires Free(s)
    ensures s.WaitOn(q', d, after).Q(q) == if q == q' then s.Q(q) + [s.current] else s.Q(q)
    ensures Pending(s.WaitOn(q', d, after), q, t) <==> Pending(s, q, t)
  {
  }

  lemma FinishTurns(s: State, q: Queue, t: Tid)
    requires Inv(s) && Enabled(s, Resume) && s.Cur().frame.Waiting?
    ensures s.FinishWait().Q(q) == Remove(s.Q(q), s.current) && Free(s.FinishWait())
      && s.FinishWait().current == s.current
    ensures Pending(s.FinishWait(), q, t) <==> Pending(s, q, t) && t != s.current
  {
  }

  /** wait() ends: a woken waiter is no longer pending, a timed-out one is off the queue. */
  lemma ResumeTurns(s: State, q: Queue, t: Tid)
    requires Inv(s) && Enabled(s, Resume)
    ensures s.Resume().Q(q) == Remove(s.Q(q), s.current) || s.Resume().Q(q) == Remove(s.Q(q), s.current) + [s.current]
    ensures Pending(s.Resume(), q, t) <==> Pending(s, q, t) && t != s.current
  {
    hide State.Resume, Pending;
    if s.Cur().frame.Waiting? {
      WaitingResumeTurns(s, q, t);
    } else {
      assert s.current !in s.Q(q);
      OtherResumeTurns(s, q, t);
      NotPending(s, q);
    }
  }

  lemma NotPending(s: State, q: Queue)
    requires !s.Cur().frame.Waiting?
    ensures !Pending(s, q, s.current)
  {
  }

  lemma WaitingResumeTurns(s: State, q: Queue, t: Tid)
    requires Inv(s) && Enabled(s, Resume) && s.Cur().frame.Waiting?
    ensures s.Resume().Q(q) == Remove(s.Q(q), s.current) || s.Resume().Q(q) == Remove(s.Q(q), s.current) + [s.current]
    ensures Pending(s.Resume(), q, t) <==> Pending(s, q, t) && t != s.current
  {
    hide Inv, State.FinishWait, State.WaitOn;
    FinishTurns(s, q, t);
    var s1, after := s.FinishWait(), s.Cur().frame.after;
    if after.Retry? && !s1.CanEnter(after.m) {
      WaitTurns(s1, OfMutex(after.m), NEVER, after, q, t);
    }
  }

  lemma OtherResumeTurns(s: State, q: Queue, t: Tid)
    requires s.current in s.threads && !s.Cur().frame.Waiting?
    ensures s.Resume().Q(q) == s.Q(q)
    ensures Pending(s.Resume(), q, t) <==> Pending(s, q, t)
  {
    match s.Cur().frame {
      case Joining(j) =>
        assert s.Unjoin().queues == s.queues && Pending(s.Unjoin(), q, t) == Pending(s, q, t);
        JoinTurns(s.Unjoin(), j, q, t);
      case ExitGate => ExitTurns(s, q, t);
      case _ =>
    }
  }

  lemma JoinTurns(s: State, j: Tid, q: Queue, t: Tid)
    requires s.current in s.threads && !s.Cur().frame.Waiting?
    ensures s.Join(j).Q(q) == s.Q(q)
    ensures Pending(s.Join(j), q, t) <==> Pending(s, q, t)
  {
  }

  lemma ExitTurns(s: State, q: Queue, t: Tid)
    requires s.current in s.threads && !s.Cur().frame.Waiting?
    ensures s.Exit().Q(q) == s.Q(q)
    ensures Pending(s.Exit(), q, t) <==> Pending(s, q, t)
  {
  }

  lemma ChooseTurns(s: State, tm: int, q: Queue, t: Tid)
    requires Inv(s) && s.inSched && s.HasReady(tm)
    ensures s.Choose(tm).Q(q) == s.Q(q)
    ensures Pending(s.Choose(tm), q, t) <==> Pending(s, q, t)
  {
  }

  /** The queue without those the step removes. */
  function Left(s: State, e: Event, q: Queue): seq<Tid> {
    if WakesAll(e, q) then []
    else if WakesOne(s, e, q) && s.Q(q) != [] then s.Q(q)[1..]
    else if e.Resume? then Remove(s.Q(q), s.current)
    else s.Q(q)
  }

  /**
   * Exactly the removed become pending, and exactly those that return 0 stop being so; what is
   * left of the queue keeps its order, with the running thread at its end if it waits.
   */
  predicate Turned(s: State, e: Event, s': State, q: Queue, t: Tid) {
    && (Pending(s', q, t) <==> (Pending(s, q, t) && !Returns(s, e, q, t, true)) || Removes(s, e, q, t))
    && (s'.Q(q) == Left(s, e, q) || s'.Q(q) == Left(s, e, q) + [s.current])
  }

  lemma PlainTurns(s: State, e: Event, q: Queue, t: Tid)
    requires Enabled(s, e) && (e.Create? || e.SetLwp? || e.Wake? || e.TryEnter? || e.Yield? || e.Sleep?)
    ensures Turned(s, e, Apply(s, e), q, t)
  {
  }

  lemma WakerTurns(s: State, e: Event, q: Queue, t: Tid)
    requires Inv(s) && Enabled(s, e) && (e.Signal? || e.Broadcast?)
    ensures Turned(s, e, Apply(s, e), q, t)
  {
    hide Inv, State.WakeupOne, State.WakeupAll, Pending;
    WakeupOneTurns(s, OfCv(e.c), q, t);
    WakeupAllTurns(s, OfCv(e.c), q, t);
  }

  lemma WaiterTurns(s: State, e: Event, q: Queue, t: Tid)
    requires Inv(s) && Enabled(s, e) && (e.Wait? || e.Enter? || e.Leave? || e.CvWait?)
    ensures Turned(s, e, Apply(s, e), q, t)
  {
    hide Inv, State.Leave, State.WaitOn, Pending;
    match e {
      case Wait(c, d) => WaitTurns(s, OfCv(c), d, Return, q, t);
      case Enter(m) =>
        assert Pending(s.TryEnter(m), q, t) == Pending(s, q, t) by { TryTurns(s, m, q, t); }
        WaitTurns(s, OfMutex(m), NEVER, Retry(m), q, t);
      case Leave(m) => LeaveTurns(s, m, q, t);
      case CvWait(c, m, d) =>
        LeaveTurns(s, m, q, t);
        WaitTurns(s.Leave(m), OfCv(c), d, Reacquire(m), q, t);
    }
  }

  lemma TryTurns(s: State, m: nat, q: Queue, t: Tid)
    ensures Pending(s.TryEnter(m), q, t) == Pending(s, q, t)
  {
  }

  lemma ThreadTurns(s: State, e: Event, q: Queue, t: Tid)
    requires Inv(s) && Enabled(s, e) && (e.Join? || e.Exit? || e.Choose? || e.Resume?)
    ensures Turned(s, e, Apply(s, e), q, t)
  {
    hide Inv, State.Resume, State.Choose, State.Join, State.Exit;
    match e {
      case Join(j) => JoinTurns(s, j, q, t);
      case Exit => ExitTurns(s, q, t);
      case Choose(tm) => ChooseTurns(s, tm, q, t);
      case Resume => ResumeTurns(s, q, t);
    }
  }

  lemma StepTurns(s: State, e: Event, q: Queue, t: Tid)
    requires Inv(s) && Enabled(s, e)
    ensures Turned(s, e, Apply(s, e), q, t)
  {
    hide Inv, Apply, Turned, Enabled;
    match e {
      case Signal(_) => WakerTurns(s, e, q, t);
      case Broadcast(_) => WakerTurns(s, e, q, t);
      case Wait(_, _) => WaiterTurns(s, e, q, t);
      case Enter(_) => WaiterTurns(s, e, q, t);
      case Leave(_) => WaiterTurns(s, e, q, t);
      case CvWait(_, _, _) => WaiterTurns(s, e, q, t);
      case Join(_) => ThreadTurns(s, e, q, t);
      case Exit => ThreadTurns(s, e, q, t);
      case Choose(_) => ThreadTurns(s, e, q, t);
      case Resume => ThreadTurns(s, e, q, t);
      case _ => PlainTurns(s, e, q, t);
    }
  }

  lemma NotBoth(s: State, e: Event, q: Queue, t: Tid)
    requires Inv(s) && Enabled(s, e)
    ensures !(Removes(s, e, q, t) && Pending(s, q, t))
    ensures Returns(s, e, q, t, true) ==> Pending(s, q, t) && !Removes(s, e, q, t)
  {
  }

  // ----- whole runs -----

  /** How often a wakeup has taken `t` off `q` in the first `n` events. */
  function Wakeups(r: Run, n: nat, q: Queue, t: Tid): nat
    requires |r.states| == |r.events| + 1 && n <= |r.events|
  {
    if n == 0 then 0 else Wakeups(r, n - 1, q, t) + B(Removes(r.states[n - 1], r.events[n - 1], q, t))
  }

  /** How often wait() on `q` has returned 0 to `t`. */
  function Zeros(r: Run, n: nat, q: Queue, t: Tid): nat
    requires |r.states| == |r.events| + 1 && n <= |r.events|
  {
    if n == 0 then 0 else Zeros(r, n - 1, q, t) + B(Returns(r.states[n - 1], r.events[n - 1], q, t, true))
  }

  /** Each removal makes one wait() return 0: the only one outstanding is the one not yet resumed. */
  lemma {:induction false} OneReturnForEachWakeup(r: Run, n: nat, q: Queue, t: Tid)
    requires r.Valid() && n <= |r.events|
    ensures Wakeups(r, n, q, t) == Zeros(r, n, q, t) + B(Pending(r.states[n], q, t))
  {
    hide Apply, Enabled, Inv, Pending, Removes, Returns, Left;
    if n > 0 {
      OneReturnForEachWakeup(r, n - 1, q, t);
      RunKeeps(r, n - 1);
      StepTurns(r.states[n - 1], r.events[n - 1], q, t);
      NotBoth(r.states[n - 1], r.events[n - 1], q, t);
    } else {
      assert !Pending(r.states[0], q, t) by { InitNotPending(q, t); }
    }
  }

  lemma InitNotPending(q: Queue, t: Tid)
    ensures !Pending(Init, q, t)
  {
  }

  /** A wait() that returns ETIMEDOUT has taken its waiter off the queue, and every queue. */
  lemma TimeoutLeavesQueue(r: Run, n: nat, q: Queue, t: Tid, q': Queue)
    requires r.Valid() && n < |r.events| && Returns(r.states[n], r.events[n], q, t, false)
    ensures t in r.states[n].Q(q)
    ensures t !in r.states[n].FinishWait().Q(q')
  {
    RunKeeps(r, n);
    var s := r.states[n];
    FinishTurns(s, q', t);
    RemoveNoDup(s.Q(q'), t);
  }

  // ----- first in, first out -----

  lemma WakersDoNotWait(s: State, e: Event, q: Queue, t: Tid)
    requires Inv(s) && Enabled(s, e) && t in s.Q(q)
    ensures NoDup(s.Q(q))
    ensures WakesOne(s, e, q) || WakesAll(e, q) ==> t != s.current
  {
  }

  /** A thread that stays on its queue moves up by the number of removals, and is never overtaken. */
  lemma StepMovesUp(s: State, e: Event, q: Queue, t: Tid)
    requires Inv(s) && Enabled(s, e) && t in s.Q(q) && t in Apply(s, e).Q(q)
    requires !(e.Resume? && s.current == t)
    ensures IndexOf(Apply(s, e).Q(q), t) + Removals(s, e, q) <= IndexOf(s.Q(q), t)
  {
    hide Inv, Apply, Enabled, Pending, WakesOne, WakesAll, Removes, Returns;
    WakersDoNotWait(s, e, q, t);
    StepTurns(s, e, q, t);
    if e.Resume? {
      IndexAfterRemove(s.Q(q), s.current, t);
    }
    if t in Left(s, e, q) {
      IndexAfterAppend(Left(s, e, q), [s.current], t);
    }
  }

  function AllRemovals(r: Run, from: nat, to: nat, q: Queue): nat
    requires |r.states| == |r.events| + 1 && from <= to <= |r.events|
  {
    if from == to then 0 else AllRemovals(r, from, to - 1, q) + Removals(r.states[to - 1], r.events[to - 1], q)
  }

  lemma ValidStep(r: Run, i: nat)
    requires r.Valid() && i < |r.events|
    ensures |r.states| == |r.events| + 1
    ensures Enabled(r.states[i], r.events[i]) && r.states[i + 1] == Apply(r.states[i], r.events[i])
  {
  }

  /**
   * A thread at place k of a queue that has not left it since has seen at most k removals: those
   * of the threads that were there before it, never of one that came later.
   */
  lemma {:induction false} FirstInFirstOut(r: Run, from: nat, to: nat, q: Queue, t: Tid)
    requires r.Valid() && from <= to <= |r.events|
    requires forall i | from <= i <= to :: t in r.states[i].Q(q)
    requires forall i | from <= i < to :: !(r.events[i].Resume? && r.states[i].current == t)
    ensures IndexOf(r.states[to].Q(q), t) + AllRemovals(r, from, to, q) <= IndexOf(r.states[from].Q(q), t)
  {
    hide Apply, Enabled, Inv, Removals, State.Q, IndexOf, Run.Valid;
    if from < to {
      ValidStep(r, to - 1);
      FirstInFirstOut(r, from, to - 1, q, t);
      RunKeeps(r, to - 1);
      StepMovesUp(r.states[to - 1], r.events[to - 1], q, t);
    }
  }
}
