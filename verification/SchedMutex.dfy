/**
 * The recursive mutex over whole runs: the count is the owner's nesting depth, nobody else
 * holds it, and a free mutex with sleepers always has one of them on its way to take it.
 */
module SchedMutex {
  import opened SchedModel
  import opened SchedInvariant
  import opened SchedFairness

  /** The call in progress takes `m` once more for the lwp of the running thread. */
  predicate Acquires(s: State, e: Event, m: nat) {
    && (e == TryEnter(m) || e == Enter(m)
        || (e.Resume? && s.Cur().frame.Waiting?
           && (s.Cur().frame.after == Retry(m) || s.Cur().frame.after == Reacquire(m))))
    && s.CanEnter(m)
  }

  predicate Releases(e: Event, m: nat) {
    e == Leave(m) || (e.CvWait? && e.m == m)
  }

  /** How often lwp `l` has taken `m` more than it has given it back, after `n` events. */
  ghost function Depth(r: Run, n: nat, m: nat, l: Lwp): int
    requires r.Valid() && n <= |r.events|
  {
    if n == 0 then 0
    else
      var s, e := r.states[n - 1], r.events[n - 1];
      Depth(r, n - 1, m, l)
      + (if s.Cur().lwp != l then 0 else if Acquires(s, e, m) then 1 else if Releases(e, m) then -1 else 0)
  }

  /** Only an lwp that holds `m` gives it back. */
  ghost predicate OnlyHoldersLeave(r: Run, n: nat, m: nat)
    requires r.Valid() && n <= |r.events|
  {
    forall i | 0 <= i < n && Releases(r.events[i], m) :: Depth(r, i, m, r.states[i].Cur().lwp) > 0
  }

  lemma {:induction false} WakeupAllKeepsMutexes(s: State, q: Queue)
    ensures s.WakeupAll(q).mutexes == s.mutexes
    decreases |s.Q(q)|
  {
    if s.Q(q) != [] {
      WakeupAllKeepsMutexes(s.WakeupOne(q), q);
    }
  }

  function Given(x: Mutex): Mutex
    requires x.v > 0
  {
    if x.v == 1 then Mutex(0, 0) else Mutex(x.v - 1, x.o)
  }

  lemma LeaveStep(s: State, m': nat, m: nat)
    requires s.Mtx(m').v > 0
    ensures s.Leave(m').Mtx(m) == if m == m' then Given(s.Mtx(m)) else s.Mtx(m)
  {
  }

  lemma EnterStep(s: State, m': nat, m: nat)
    ensures s.TryEnter(m').Mtx(m) == if m == m' && s.CanEnter(m) then Mutex(s.Mtx(m).v + 1, s.Cur().lwp) else s.Mtx(m)
    ensures s.Enter(m').Mtx(m) == s.TryEnter(m').Mtx(m)
  {
  }

  lemma ResumeStep(s: State, m: nat)
    ensures s.Resume().Mtx(m) == if Acquires(s, Resume, m) then Mutex(s.Mtx(m).v + 1, s.Cur().lwp) else s.Mtx(m)
  {
    if s.Cur().frame.Waiting? {
      var s1 := s.FinishWait();
      assert s1.mutexes == s.mutexes && s1.Cur().lwp == s.Cur().lwp;
      hide State.FinishWait, State.Enter, State.TryEnter;
      if !s.Cur().frame.after.Return? {
        EnterStep(s1, s.Cur().frame.after.m, m);
      }
    }
  }

  /** What a step does to one mutex. */
  lemma MutexStep(s: State, e: Event, m: nat)
    requires Enabled(s, e)
    ensures Releases(e, m) ==> s.Mtx(m).v > 0
    ensures Apply(s, e).Mtx(m)
         == if Acquires(s, e, m) then Mutex(s.Mtx(m).v + 1, s.Cur().lwp)
            else if Releases(e, m) then Given(s.Mtx(m))
            else s.Mtx(m)
  {
    hide State.Leave, State.Resume, State.Enter, State.TryEnter, State.Create, State.WakeupOne, State.WakeupAll,
      State.Wake, State.Join, State.Exit, State.Choose;
    match e {
      case Broadcast(c) => WakeupAllKeepsMutexes(s, OfCv(c));
      case Resume => ResumeStep(s, m);
      case TryEnter(m') => EnterStep(s, m', m);
      case Enter(m') => EnterStep(s, m', m);
      case Leave(m') => LeaveStep(s, m', m);
      case CvWait(_, m', _) => LeaveStep(s, m', m);
      case _ => NoMutexStep(s, e);
    }
  }

  lemma NoMutexStep(s: State, e: Event)
    requires Enabled(s, e) && !(e.Broadcast? || e.Resume? || e.TryEnter? || e.Enter? || e.Leave? || e.CvWait?)
    ensures Apply(s, e).mutexes == s.mutexes
  {
  }

  /** A cv_wait() that returns holds its mutex, whichever way it was woken. */
  lemma CvWaitReturnsHolding(r: Run, n: nat, m: nat)
    requires r.Valid() && n < |r.events| && r.events[n] == Resume
    requires r.states[n].Cur().frame.Waiting? && r.states[n].Cur().frame.after == Reacquire(m)
    ensures Free(r.states[n + 1]) && r.states[n + 1].current == r.states[n].current
    ensures r.states[n + 1].Mtx(m) == Mutex(r.states[n].Mtx(m).v + 1, r.states[n + 1].Cur().lwp)
  {
    hide Inv, Apply;
    RunKeeps(r, n);
    assert r.states[n + 1] == Apply(r.states[n], Resume);
    ReacquireHolds(r.states[n], m);
  }

  lemma ReacquireHolds(s: State, m: nat)
    requires Inv(s) && Enabled(s, Resume) && s.Cur().frame.Waiting? && s.Cur().frame.after == Reacquire(m)
    ensures var s' := Apply(s, Resume);
            Free(s') && s'.current == s.current && s'.Mtx(m) == Mutex(s.Mtx(m).v + 1, s'.Cur().lwp)
  {
  }

  /** `v` is the nesting depth of the lwp in `o`; every other lwp has depth zero. */
  lemma {:induction false} CountIsOwnersDepth(r: Run, n: nat, m: nat)
    requires r.Valid() && n <= |r.events| && OnlyHoldersLeave(r, n, m)
    ensures Depth(r, n, m, r.states[n].Mtx(m).o) == r.states[n].Mtx(m).v
    ensures forall l | l != r.states[n].Mtx(m).o :: Depth(r, n, m, l) == 0
    ensures r.states[n].Mtx(m).v == 0 ==> r.states[n].Mtx(m).o == 0
  {
    if n > 0 {
      CountIsOwnersDepth(r, n - 1, m);
      MutexStep(r.states[n - 1], r.events[n - 1], m);
      hide Apply;
    }
  }

  /** No two lwps ever hold the mutex. */
  lemma MutualExclusion(r: Run, n: nat, m: nat, l1: Lwp, l2: Lwp)
    requires r.Valid() && n <= |r.events| && OnlyHoldersLeave(r, n, m)
    requires Depth(r, n, m, l1) > 0 && Depth(r, n, m, l2) > 0
    ensures l1 == l2
  {
    CountIsOwnersDepth(r, n, m);
  }

  // ----- no lost wakeup -----

  /** Taken off the queue of `m` by mutex_exit() and about to try again. */
  predicate Retrying(s: State, t: Tid, m: nat) {
    t in s.threads && s.threads[t].frame == Waiting(OfMutex(m), false, Retry(m))
  }

  ghost predicate SomeoneComes(s: State, m: nat) {
    s.Mtx(m).v == 0 && s.Q(OfMutex(m)) != [] ==> exists t :: Retrying(s, t, m)
  }

  /** The queue of `m` is as before, and so is a thread about to retry on it. */
  predicate Untouched(s: State, s': State, m: nat, t: Tid) {
    s'.Q(OfMutex(m)) == s.Q(OfMutex(m)) && (Retrying(s, t, m) ==> Retrying(s', t, m))
  }

  lemma WakeupOneElsewhere(s: State, q: Queue, m: nat, t: Tid)
    requires Inv(s) && q != OfMutex(m)
    ensures Untouched(s, s.WakeupOne(q), m, t)
  {
    if s.Q(q) != [] {
      assert s.Q(q)[0] in s.Q(q);
    }
  }

  lemma {:induction false} WakeupAllElsewhere(s: State, q: Queue, m: nat, t: Tid)
    requires Inv(s) && q != OfMutex(m)
    ensures Untouched(s, s.WakeupAll(q), m, t)
    decreases |s.Q(q)|
  {
    if s.Q(q) != [] {
      WakeupOneElsewhere(s, q, m, t);
      WakeupOneKeeps(s, q);
      WakeupAllElsewhere(s.WakeupOne(q), q, m, t);
    }
  }

  lemma LeaveElsewhere(s: State, m': nat, m: nat, t: Tid)
    requires Inv(s) && Free(s) && m' != m && s.Mtx(m').v > 0
    ensures Untouched(s, s.Leave(m'), m, t) && Inv(s.Leave(m')) && Free(s.Leave(m'))
  {
    LeaveKeeps(s, m');
    if s.Mtx(m').v == 1 {
      WakeupOneElsewhere(s.(mutexes := s.mutexes[m' := Mutex(0, 0)]), OfMutex(m'), m, t);
    }
  }

  lemma WaitElsewhere(s: State, q: Queue, d: int, after: After, m: nat, t: Tid)
    requires Free(s) && q != OfMutex(m)
    ensures Untouched(s, s.WaitOn(q, d, after), m, t)
  {
  }

  lemma FinishElsewhere(s: State, m: nat, t: Tid)
    requires Inv(s) && !s.inSched && s.Cur().frame.Waiting? && s.Cur().frame.q != OfMutex(m)
    ensures Untouched(s, s.FinishWait(), m, t) && Free(s.FinishWait())
  {
  }

  lemma JoinElsewhere(s: State, m: nat, t: Tid)
    requires s.Cur().frame.Joining?
    ensures Untouched(s, s.Unjoin(), m, t)
  {
  }

  lemma JoinAgainElsewhere(s: State, j: Tid, m: nat, t: Tid)
    requires Free(s)
    ensures Untouched(s, s.Join(j), m, t)
  {
  }

  lemma ExitElsewhere(s: State, m: nat, t: Tid)
    requires !s.Cur().frame.Waiting? && s.current in s.threads
    ensures Untouched(s, s.Exit(), m, t)
  {
  }

  /** Resuming a call that does not end up taking a free `m` concerns other queues only. */
  lemma ResumeElsewhere(s: State, m: nat, t: Tid)
    requires Inv(s) && Enabled(s, Resume) && s.Mtx(m).v == 0 && !Acquires(s, Resume, m)
    ensures Untouched(s, s.Resume(), m, t)
  {
    hide Inv, Untouched, State.FinishWait, State.WaitOn, State.Unjoin, State.Join, State.Exit, State.TryEnter;
    WaitsElsewhere(s, m);
    match s.Cur().frame {
      case Waiting(_, _, after) =>
        FinishElsewhere(s, m, t);
        var s1 := s.FinishWait();
        if after.Retry? && !s1.CanEnter(after.m) {
          WaitElsewhere(s1, OfMutex(after.m), NEVER, after, m, t);
        } else if !after.Return? {
          TryKeepsRest(s1, after.m);
        }
        UntouchedTwice(s, s1, s.Resume(), m, t);
      case Joining(j) =>
        JoinElsewhere(s, m, t);
        assert Free(s.Unjoin()) by { UnjoinKeeps(s); }
        JoinAgainElsewhere(s.Unjoin(), j, m, t);
        UntouchedTwice(s, s.Unjoin(), s.Resume(), m, t);
      case ExitGate => ExitElsewhere(s, m, t);
      case _ => UntouchedTwice(s, s, s.Resume(), m, t);
    }
  }

  lemma WaitsElsewhere(s: State, m: nat)
    requires Inv(s) && Enabled(s, Resume) && s.Mtx(m).v == 0 && !Acquires(s, Resume, m)
    ensures s.current in s.threads && (s.Cur().frame.Waiting? ==> s.Cur().frame.q != OfMutex(m))
  {
  }

  lemma TryKeepsRest(s: State, m: nat)
    ensures s.TryEnter(m).queues == s.queues && s.TryEnter(m).threads == s.threads
  {
  }

  lemma UntouchedTwice(s: State, s1: State, s2: State, m: nat, t: Tid)
    ensures Untouched(s, s1, m, t) && Untouched(s1, s2, m, t) ==> Untouched(s, s2, m, t)
    ensures s1.queues == s2.queues && s1.threads == s2.threads ==> Untouched(s1, s2, m, t)
  {
  }

  lemma ChooseElsewhere(s: State, tm: int, m: nat, t: Tid)
    requires Inv(s) && s.inSched && s.HasReady(tm)
    ensures Untouched(s, s.Choose(tm), m, t)
  {
  }

  lemma StepElsewhere(s: State, e: Event, m: nat, t: Tid)
    requires Inv(s) && Enabled(s, e) && s.Mtx(m).v == 0 && !Acquires(s, e, m)
    ensures Untouched(s, Apply(s, e), m, t)
  {
    hide Inv, State.Leave, State.Resume, State.Choose, State.WaitOn, State.Join, State.Exit, State.WakeupOne,
      State.WakeupAll, State.TryEnter, State.Create, State.Wake, State.Suspend;
    match e {
      case Signal(c) => WakeupOneElsewhere(s, OfCv(c), m, t);
      case Broadcast(c) => WakeupAllElsewhere(s, OfCv(c), m, t);
      case Enter(m') =>
        if s.CanEnter(m') {
          PlainElsewhere(s, TryEnter(m'), m, t);
        } else {
          WaitElsewhere(s, OfMutex(m'), NEVER, Retry(m'), m, t);
        }
      case Leave(m') => LeaveElsewhere(s, m', m, t);
      case Wait(c, d) => WaitElsewhere(s, OfCv(c), d, Return, m, t);
      case CvWait(c, m', d) =>
        LeaveElsewhere(s, m', m, t);
        WaitElsewhere(s.Leave(m'), OfCv(c), d, Reacquire(m'), m, t);
      case Join(j) => JoinAgainElsewhere(s, j, m, t);
      case Exit => ExitElsewhere(s, m, t);
      case Choose(tm) => ChooseElsewhere(s, tm, m, t);
      case Resume => ResumeElsewhere(s, m, t);
      case _ => PlainElsewhere(s, e, m, t);
    }
  }

  lemma PlainElsewhere(s: State, e: Event, m: nat, t: Tid)
    requires Enabled(s, e) && (e.Create? || e.SetLwp? || e.Wake? || e.TryEnter? || e.Yield? || e.Sleep?)
    ensures Untouched(s, Apply(s, e), m, t)
  {
  }

  /** mutex_exit() hands a free mutex to the first sleeper. */
  lemma LeaveHandsOver(s: State, m: nat)
    requires Inv(s) && Free(s) && s.Mtx(m).v == 1
    ensures s.Q(OfMutex(m)) != [] ==> Retrying(s.Leave(m), s.Q(OfMutex(m))[0], m)
    ensures s.Q(OfMutex(m)) == [] ==> s.Leave(m).Q(OfMutex(m)) == []
    ensures Free(s.Leave(m))
  {
    LeaveKeeps(s, m);
    if s.Q(OfMutex(m)) != [] {
      assert s.Q(OfMutex(m))[0] in s.Q(OfMutex(m));
    }
  }

  lemma ReleaseHandsOver(s: State, e: Event, m: nat)
    requires Inv(s) && Enabled(s, e) && Releases(e, m) && s.Mtx(m).v == 1
    ensures SomeoneComes(Apply(s, e), m)
  {
    hide State.Leave, State.WaitOn, Inv;
    LeaveHandsOver(s, m);
    var t := if s.Q(OfMutex(m)) != [] then s.Q(OfMutex(m))[0] else 0;
    if e.CvWait? {
      WaitElsewhere(s.Leave(m), OfCv(e.c), e.deadline, Reacquire(m), m, t);
    }
    assert s.Q(OfMutex(m)) != [] ==> Retrying(Apply(s, e), t, m);
  }

  lemma StepHandsOver(s: State, e: Event, m: nat)
    requires Inv(s) && Enabled(s, e) && SomeoneComes(s, m)
    ensures SomeoneComes(Apply(s, e), m)
  {
    MutexStep(s, e, m);
    if Releases(e, m) && s.Mtx(m).v == 1 {
      ReleaseHandsOver(s, e, m);
    } else if s.Mtx(m).v == 0 && !Acquires(s, e, m) {
      hide Apply, Inv, Acquires;
      var t :| s.Q(OfMutex(m)) != [] ==> Retrying(s, t, m);
      StepElsewhere(s, e, m, t);
    }
  }

  /**
   * In every reachable state a free mutex with sleepers has a thread, already taken off its
   * queue, that is runnable, on the run list and about to retry, whoever else barges in and
   * however often threads are woken for no reason.
   */
  lemma {:induction false} NoLostWakeup(r: Run, n: nat, m: nat)
    requires r.Valid() && n < |r.states|
    ensures SomeoneComes(r.states[n], m)
    ensures forall t | Retrying(r.states[n], t, m) :: t in r.states[n].runList && r.states[n].threads[t].runnable
  {
    hide Apply, Enabled, SomeoneComes, Inv;
    RunKeeps(r, n);
    RetryingRuns(r.states[n], m);
    if n > 0 {
      NoLostWakeup(r, n - 1, m);
      RunKeeps(r, n - 1);
      StepHandsOver(r.states[n - 1], r.events[n - 1], m);
    } else {
      NobodyWaits(m);
    }
  }

  lemma NobodyWaits(m: nat)
    ensures SomeoneComes(Init, m)
  {
  }

  lemma RetryingRuns(s: State, m: nat)
    requires Inv(s)
    ensures forall t | Retrying(s, t, m) :: t in s.runList && s.threads[t].runnable
  {
  }

  // ----- and the wakeup leads somewhere -----

  ghost predicate NobodyTakes(r: Run, from: nat, to: nat, m: nat)
    requires r.Valid() && from <= to <= |r.events|
  {
    forall i | from <= i < to :: !Acquires(r.states[i], r.events[i], m)
  }

  lemma {:induction false} StaysFree(r: Run, from: nat, to: nat, m: nat, t: Tid)
    requires r.Valid() && from <= to <= |r.events| && NobodyTakes(r, from, to, m)
    requires r.states[from].Mtx(m).v == 0 && Retrying(r.states[from], t, m)
    ensures r.states[to].Mtx(m).v == 0 && Retrying(r.states[to], t, m)
  {
    hide Apply, Enabled, Inv, Acquires, Retrying;
    if from < to {
      StaysFree(r, from, to - 1, m, t);
      RunKeeps(r, to - 1);
      MutexStep(r.states[to - 1], r.events[to - 1], m);
      StepElsewhere(r.states[to - 1], r.events[to - 1], m, t);
    }
  }

  /** A thread that has been picked to retry on a free mutex does nothing before it takes it. */
  lemma {:induction false} NoChoiceBeforeRetry(r: Run, from: nat, to: nat, m: nat, t: Tid)
    requires r.Valid() && from <= to <= |r.events| && NobodyTakes(r, from, to, m)
    requires r.states[from].Mtx(m).v == 0 && Retrying(r.states[from], t, m)
    requires r.states[from].current == t && !r.states[from].inSched
    ensures r.states[to].current == t && !r.states[to].inSched
    ensures Choices(r, from, to) == 0
  {
    hide Apply, Enabled, Acquires, Retrying, State.Mtx;
    if from < to {
      NoChoiceBeforeRetry(r, from, to - 1, m, t);
      StaysFree(r, from, to - 1, m, t);
      OnlyWakesComeFirst(r.states[to - 1], r.events[to - 1], m);
    }
  }

  lemma OnlyWakesComeFirst(s: State, e: Event, m: nat)
    requires Enabled(s, e) && !s.inSched && s.Mtx(m).v == 0 && Retrying(s, s.current, m) && !Acquires(s, e, m)
    ensures e.Wake? && Apply(s, e).current == s.current && !Apply(s, e).inSched
  {
  }

  lemma {:induction false} ChoicesAdd(r: Run, a: nat, b: nat, c: nat)
    requires a <= b <= c <= |r.events|
    ensures Choices(r, a, c) == Choices(r, a, b) + Choices(r, b, c)
  {
    if b < c {
      ChoicesAdd(r, a, b, c - 1);
    }
  }

  lemma PickedRuns(r: Run, i: nat, t: Tid)
    requires r.Valid() && i < |r.events| && Picks(r.states[i], r.events[i], t)
    ensures r.states[i + 1].current == t && !r.states[i + 1].inSched
  {
  }

  /** If nobody takes a free mutex that has sleepers, schedule() makes at most one choice for each thread listed. */
  lemma FewChoicesWhileFree(r: Run, from: nat, to: nat, m: nat, t: Tid)
    requires r.Valid() && from <= to <= |r.events| && NobodyTakes(r, from, to, m)
    requires r.states[from].Mtx(m).v == 0 && Retrying(r.states[from], t, m)
    ensures Choices(r, from, to) <= |r.states[from].runList|
  {
    hide Apply, Enabled, Inv, Acquires, Picks, State.Mtx;
    assert InLine(r.states[from], t) || (r.states[from].current == t && !r.states[from].inSched) by {
      NoLostWakeup(r, from, m);
    }
    if InLine(r.states[from], t) {
      if Choices(r, from, to) > Place(r.states[from], t) {
        BoundedBypass(r, from, to, t);
        var i :| from <= i < to && Picks(r.states[i], r.events[i], t)
            && Choices(r, from, i) <= Place(r.states[from], t);
        PickedRuns(r, i, t);
        StaysFree(r, from, i + 1, m, t);
        NoChoiceBeforeRetry(r, i + 1, to, m, t);
        ChoicesAdd(r, from, i + 1, to);
      }
    } else {
      NoChoiceBeforeRetry(r, from, to, m, t);
    }
  }

  /** A free mutex with sleepers is taken by somebody before every listed thread has had its turn. */
  lemma FreeMutexIsTaken(r: Run, from: nat, to: nat, m: nat)
    requires r.Valid() && from <= to <= |r.events|
    requires r.states[from].Mtx(m).v == 0 && r.states[from].Q(OfMutex(m)) != []
    requires Choices(r, from, to) > |r.states[from].runList|
    ensures exists i | from <= i < to :: Acquires(r.states[i], r.events[i], m)
  {
    hide Apply, Enabled, Acquires, Retrying;
    NoLostWakeup(r, from, m);
    var t :| Retrying(r.states[from], t, m);
    if NobodyTakes(r, from, to, m) {
      FewChoicesWhileFree(r, from, to, m, t);
    }
  }
}
