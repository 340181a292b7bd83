/**
 * What the calls of the library come to, in every run: a call that may block either does its work and
 * returns, or leaves its thread blocked where the right event will find it; what is woken is in line for
 * the processor, and what has left does not come back.
 */
module SchedCalls {
  import opened Lists
  import opened SchedModel
  import opened SchedInvariant
  import opened SchedFairness
  import opened SchedMutex
  import opened SchedWaits

  // ----- mutexes -----

  /** mutex_enter() is called, or carries on after a wait. */
  predicate Entering(s: State, e: Event, m: nat) {
    e == Enter(m) || (e.Resume? && s.Cur().frame.Waiting? && s.Cur().frame.after == Retry(m))
  }

  /** It has the mutex, one level deeper and in the caller's name, or sleeps in its queue while another holds it. */
  predicate Entered(s: State, s': State, m: nat) {
    && s'.current == s.current && s'.Cur().lwp == s.Cur().lwp
    && if s.Mtx(m).v == 0 || s.Mtx(m).o == s.Cur().lwp
       then Free(s') && s'.Mtx(m) == Mutex(s.Mtx(m).v + 1, s.Cur().lwp)
       else s'.inSched && !s'.Cur().runnable && s.current in s'.Q(OfMutex(m))
            && s'.Mtx(m) == s.Mtx(m) && s'.Mtx(m).v > 0 && s'.Mtx(m).o != s'.Cur().lwp
  }

  lemma EnterFree(s: State, m: nat)
    requires Free(s)
    ensures Entered(s, s.Enter(m), m)
  {
  }

  lemma FinishIsFree(s: State)
    requires Inv(s) && !s.inSched && s.Cur().frame.Waiting?
    ensures var s1 := s.FinishWait();
            Free(s1) && s1.current == s.current && s1.Cur().lwp == s.Cur().lwp && s1.mutexes == s.mutexes
  {
    FinishWaitKeeps(s);
  }

  /** mutex_enter() returns only with the mutex: at once exactly if it is free or the caller's own. */
  lemma EnterEnds(r: Run, n: nat, m: nat)
    requires r.Valid() && n < |r.events| && Entering(r.states[n], r.events[n], m)
    ensures Entered(r.states[n], r.states[n + 1], m)
  {
    hide Inv, Entered, State.FinishWait, State.Enter;
    RunKeeps(r, n);
    var s := r.states[n];
    if r.events[n] == Enter(m) {
      EnterFree(s, m);
    } else {
      FinishIsFree(s);
      EnterFree(s.FinishWait(), m);
      EnteredFrom(s, s.FinishWait(), s.FinishWait().Enter(m), m);
    }
  }

  lemma EnteredFrom(s: State, s1: State, s': State, m: nat)
    requires Entered(s1, s', m)
    requires s1.current == s.current && s1.Cur().lwp == s.Cur().lwp && s1.mutexes == s.mutexes
    ensures Entered(s, s', m)
  {
  }

  /** mutex_tryenter() always returns, with the mutex exactly if it is free or the caller's own. */
  lemma TryEnterEnds(r: Run, n: nat, m: nat)
    requires r.Valid() && n < |r.events| && r.events[n] == TryEnter(m)
    ensures var s, s' := r.states[n], r.states[n + 1];
            && Free(s') && s'.current == s.current
            && s'.Mtx(m) == if s.Mtx(m).v == 0 || s.Mtx(m).o == s.Cur().lwp
                            then Mutex(s.Mtx(m).v + 1, s.Cur().lwp)
                            else s.Mtx(m)
  {
  }

  // ----- waiting and waking -----

  /** A wait leaves its thread last in the queue, blocked until the deadline, with its mutex one level less held. */
  lemma WaitBlocks(r: Run, n: nat, c: nat, d: int)
    requires r.Valid() && n < |r.events|
    requires r.events[n] == Wait(c, d) || (r.events[n].CvWait? && r.events[n].c == c && r.events[n].deadline == d)
    ensures var s, e, s' := r.states[n], r.events[n], r.states[n + 1];
            && s'.inSched && s'.current == s.current && !s'.Cur().runnable && s'.Cur().wakeup == d
            && s'.Q(OfCv(c)) == s.Q(OfCv(c)) + [s.current]
            && (e.CvWait? ==> s.Mtx(e.m).v > 0 && s'.Mtx(e.m) == Given(s.Mtx(e.m)))
  {
    hide Inv, State.Leave;
    RunKeeps(r, n);
    var s, e := r.states[n], r.events[n];
    if e.CvWait? {
      LeaveTurns(s, e.m, OfCv(c), s.current);
      LeaveStep(s, e.m, e.m);
    }
  }

  /** A wait on a condition variable that has no mutex to take again returns when it is resumed. */
  lemma WaitReturns(r: Run, n: nat)
    requires r.Valid() && n < |r.events| && r.events[n] == Resume
    requires r.states[n].Cur().frame.Waiting? && r.states[n].Cur().frame.after == Return
    ensures Free(r.states[n + 1]) && r.states[n + 1].current == r.states[n].current
  {
    RunKeeps(r, n);
    FinishIsFree(r.states[n]);
  }

  /** Whoever a wakeup takes off a queue is in line for the processor. */
  lemma RemovedRuns(r: Run, n: nat, q: Queue, t: Tid)
    requires r.Valid() && n < |r.events| && Removes(r.states[n], r.events[n], q, t)
    ensures InLine(r.states[n + 1], t)
  {
    hide Inv, Apply, Enabled;
    RunKeeps(r, n);
    RunKeeps(r, n + 1);
    var s, e := r.states[n], r.events[n];
    assert r.states[n + 1] == Apply(s, e);
    StepTurns(s, e, q, t);
    WakersDoNotWait(s, e, q, t);
    WakerStays(s, e, q, t);
    PendingRuns(r.states[n + 1], q, t);
  }

  lemma WakerStays(s: State, e: Event, q: Queue, t: Tid)
    requires Inv(s) && Enabled(s, e) && Removes(s, e, q, t)
    ensures Apply(s, e).current == s.current
  {
    if e.Broadcast? && s.Q(q) != [] {
      WakeupAllStays(s, OfCv(e.c));
    }
  }

  lemma {:induction false} WakeupAllStays(s: State, q: Queue)
    ensures s.WakeupAll(q).current == s.current && s.WakeupAll(q).runList == s.runList
    ensures s.WakeupAll(q).freed == s.freed && s.WakeupAll(q).exited == s.exited
    decreases |s.Q(q)|
  {
    if s.Q(q) != [] {
      WakeupAllStays(s.WakeupOne(q), q);
    }
  }

  lemma PendingRuns(s: State, q: Queue, t: Tid)
    requires Inv(s) && Pending(s, q, t)
    ensures t in s.runList && s.Thr(t).runnable
  {
  }

  /** A wake from outside puts a thread in line, unless it is running or gone. */
  lemma WokenRuns(r: Run, n: nat, t: Tid)
    requires r.Valid() && n < |r.events| && r.events[n] == Wake(t)
    requires t in r.states[n].runList && (t == r.states[n].current ==> r.states[n].inSched)
    ensures InLine(r.states[n + 1], t)
  {
  }

  /** A new thread is in line, behind all others, and joinable as asked. */
  lemma CreatedRuns(r: Run, n: nat, t: Tid, joinable: bool)
    requires r.Valid() && n < |r.events| && r.events[n] == Create(t, joinable)
    ensures InLine(r.states[n + 1], t) && Place(r.states[n + 1], t) == |r.states[n].runList|
    ensures r.states[n + 1].Thr(t).mustJoin == joinable && Free(r.states[n + 1])
  {
    hide Inv;
    RunKeeps(r, n);
    NewIsLast(r.states[n], t);
  }

  lemma NewIsLast(s: State, t: Tid)
    requires Inv(s) && t !in s.threads
    ensures t !in s.runList && t != s.current && IndexOf(s.runList + [t], t) == |s.runList|
  {
    LastIndex(s.runList, t);
  }

  lemma {:induction false} LastIndex(l: seq<Tid>, t: Tid)
    requires t !in l
    ensures IndexOf(l + [t], t) == |l|
  {
    if l != [] {
      assert (l + [t])[1..] == l[1..] + [t];
      LastIndex(l[1..], t);
    }
  }

  /** A thread that yields is in line, and the processor looks for another. */
  lemma YieldGivesWay(r: Run, n: nat)
    requires r.Valid() && n < |r.events| && r.events[n] == Yield
    ensures r.states[n + 1].inSched && InLine(r.states[n + 1], r.states[n].current)
  {
    RunKeeps(r, n);
  }

  // ----- join and exit -----

  /** join_thread() is called, or carries on after a switch. */
  predicate JoinGoesOn(s: State, e: Event, j: Tid) {
    e == Join(j) || (e.Resume? && s.Cur().frame == Joining(j))
  }

  /**
   * If the target has arrived, the call returns, and the target, no longer to be joined, is in line for the
   * processor; if not, the thread is blocked and on record as the one that waits for it.
   */
  predicate JoinGot(s: State, s': State, j: Tid) {
    && s'.current == s.current
    && if s.Thr(j).joined then Free(s') && !s'.Thr(j).mustJoin && InLine(s', j)
       else s'.inSched && !s'.Cur().runnable && s'.Cur().frame == Joining(j) && JoinWaiter(s.current, j) in s'.joinq
  }

  lemma JoinFree(s: State, j: Tid)
    requires Inv(s) && Enabled(s, Join(j))
    ensures JoinGot(s, s.Join(j), j)
  {
  }

  lemma UnjoinIsFree(s: State, j: Tid)
    requires Inv(s) && !s.inSched && s.Cur().frame == Joining(j)
    ensures var s1 := s.Unjoin();
            Inv(s1) && Enabled(s1, Join(j)) && s1.current == s.current && s1.Thr(j).joined == s.Thr(j).joined
  {
    UnjoinKeeps(s);
  }

  /** join_thread() returns only when its target has arrived. */
  lemma JoinEnds(r: Run, n: nat, j: Tid)
    requires r.Valid() && n < |r.events| && JoinGoesOn(r.states[n], r.events[n], j)
    ensures JoinGot(r.states[n], r.states[n + 1], j)
  {
    hide Inv, State.Unjoin, State.Join;
    RunKeeps(r, n);
    var s := r.states[n];
    if r.events[n] == Join(j) {
      JoinFree(s, j);
    } else {
      UnjoinIsFree(s, j);
      JoinFree(s.Unjoin(), j);
    }
  }

  /** exit_thread() is called, or carries on at the gate. */
  predicate ExitGoesOn(s: State, e: Event) {
    e == Exit || (e.Resume? && s.Cur().frame.ExitGate?)
  }

  /** Off the run list, on the exited list or freed: nothing can put it back. */
  predicate Departed(s: State, t: Tid) {
    t in s.exited || t in s.freed
  }

  /** A thread that must be joined is blocked at the gate and says so, with its joiner in line; another departs. */
  ghost predicate ExitGot(s: State, s': State) {
    && s'.current == s.current && s'.inSched
    && if s.Cur().mustJoin
       then s.current in s'.runList && s'.Cur().joined && !s'.Cur().runnable
            && forall a | a in s.threads && s.threads[a].frame == Joining(s.current) :: InLine(s', a)
       else Departed(s', s.current) && s.current !in s'.runList
  }

  lemma ExitGate(s: State)
    requires Inv(s) && !s.inSched && (s.Cur().frame.User? || s.Cur().frame.ExitGate?)
    ensures ExitGot(s, s.Exit())
  {
    hide State.WakeJoiner, State.Gate;
    if s.Cur().mustJoin {
      GateOrder(s);
      WakeJoinerKeeps(s);
    } else {
      LeavesList(s);
    }
  }

  lemma LeavesList(s: State)
    requires Inv(s)
    ensures s.current !in Remove(s.runList, s.current)
  {
    RemoveNoDup(s.runList, s.current);
  }

  /** exit_thread() never returns: its thread departs, or blocks until it is joined. */
  lemma ExitEnds(r: Run, n: nat)
    requires r.Valid() && n < |r.events| && ExitGoesOn(r.states[n], r.events[n])
    ensures ExitGot(r.states[n], r.states[n + 1])
  {
    hide Inv, State.Exit, ExitGot;
    RunKeeps(r, n);
    ExitGate(r.states[n]);
  }

  lemma DepartedStep(s: State, e: Event, t: Tid)
    requires Inv(s) && Enabled(s, e) && Departed(s, t)
    ensures Departed(Apply(s, e), t)
  {
    hide Inv;
    match e {
      case Broadcast(c) => WakeupAllStays(s, OfCv(c));
      case Resume => ResumeDeparts(s, t);
      case Choose(tm) => ChooseDeparts(s, tm, t);
      case _ =>
    }
  }

  lemma ChooseDeparts(s: State, tm: int, t: Tid)
    requires Inv(s) && s.HasReady(tm) && Departed(s, t)
    ensures Departed(s.Choose(tm), t)
  {
    assert s.Next(tm) in s.runList;
  }

  lemma ResumeDeparts(s: State, t: Tid)
    requires Enabled(s, Resume) && Departed(s, t)
    ensures Departed(s.Resume(), t)
  {
    if s.Cur().frame.Waiting? {
      FinishStays(s);
    }
  }

  lemma FinishStays(s: State)
    requires s.Cur().frame.Waiting?
    ensures s.FinishWait().current == s.current && s.FinishWait().runList == s.runList
    ensures s.FinishWait().exited == s.exited && s.FinishWait().freed == s.freed
  {
  }

  lemma DepartedIsOff(s: State, t: Tid)
    requires Inv(s) && Departed(s, t)
    ensures t !in s.runList && (t == s.current ==> s.inSched)
  {
  }

  /** A thread that has departed is never listed, chosen or running again. */
  lemma {:induction false} NeverComesBack(r: Run, m: nat, n: nat, t: Tid)
    requires r.Valid() && m <= n < |r.states| && Departed(r.states[m], t)
    ensures Departed(r.states[n], t) && t !in r.states[n].runList
    ensures t == r.states[n].current ==> r.states[n].inSched
    ensures n < |r.events| ==> !Picks(r.states[n], r.events[n], t)
  {
    hide Apply, Enabled, Inv;
    RunKeeps(r, n);
    if m < n {
      NeverComesBack(r, m, n - 1, t);
      RunKeeps(r, n - 1);
      DepartedStep(r.states[n - 1], r.events[n - 1], t);
    }
    DepartedIsOff(r.states[n], t);
  }

  // ----- the lwp of a thread -----

  /** What the thread itself has set last; none when it was created. */
  ghost function LastLwp(r: Run, n: nat, t: Tid): Lwp
    requires r.Valid() && n <= |r.events|
  {
    if n == 0 then 0
    else LwpAfter(r.states[n - 1], r.events[n - 1], t, LastLwp(r, n - 1, t))
  }

  function LwpAfter(s: State, e: Event, t: Tid, l: Lwp): Lwp {
    if e.SetLwp? && s.current == t then e.l
    else if e.Create? && e.t == t then 0
    else l
  }

  predicate LwpSame(s: State, s': State, t: Tid) {
    t in s'.threads ==> t in s.threads && s'.threads[t].lwp == s.threads[t].lwp
  }

  lemma {:induction false} WakeupAllLwp(s: State, q: Queue, t: Tid)
    requires Inv(s)
    ensures LwpSame(s, s.WakeupAll(q), t)
    decreases |s.Q(q)|
  {
    hide Inv, State.WakeupOne;
    if s.Q(q) != [] {
      WakeupOneLwp(s, q, t);
      WakeupOneKeeps(s, q);
      WakeupOneShrinks(s, q);
      WakeupAllLwp(s.WakeupOne(q), q, t);
    }
  }

  lemma WakeupOneShrinks(s: State, q: Queue)
    requires s.Q(q) != []
    ensures s.WakeupOne(q).Q(q) == s.Q(q)[1..]
  {
  }

  lemma WakeupOneLwp(s: State, q: Queue, t: Tid)
    requires Inv(s)
    ensures LwpSame(s, s.WakeupOne(q), t)
  {
    if s.Q(q) != [] {
      assert s.Q(q)[0] in s.Q(q);
    }
  }

  lemma LeaveLwp(s: State, m: nat, t: Tid)
    requires Inv(s) && s.Mtx(m).v > 0
    ensures LwpSame(s, s.Leave(m), t) && s.Leave(m).current == s.current && s.current in s.Leave(m).threads
  {
    if s.Mtx(m).v == 1 && s.Q(OfMutex(m)) != [] {
      assert s.Q(OfMutex(m))[0] in s.Q(OfMutex(m));
    }
  }

  lemma AllThere(s: State)
    requires Inv(s)
    ensures s.current in s.threads
    ensures forall k | 0 <= k < |s.joinq| :: s.joinq[k].thread in s.threads
    ensures s.Cur().frame.Joining? ==> s.Cur().frame.target in s.threads
  {
    assert forall k | 0 <= k < |s.joinq| :: s.joinq[k] in s.joinq;
  }

  lemma ExitLwp(s: State, t: Tid)
    requires Inv(s)
    ensures LwpSame(s, s.Exit(), t)
  {
    hide Inv;
    AllThere(s);
  }

  lemma ResumeLwp(s: State, t: Tid)
    requires Inv(s) && Enabled(s, Resume)
    ensures LwpSame(s, s.Resume(), t)
  {
    hide Inv, State.Exit, State.FinishWait, State.Unjoin, State.WaitOn, State.TryEnter, State.Join;
    AllThere(s);
    match s.Cur().frame {
      case ExitGate => ExitLwp(s, t);
      case Waiting(_, _, after) =>
        FinishLwp(s, t);
        if !after.Return? {
          EnterLwp(s.FinishWait(), after.m, t);
        }
      case Joining(j) => RejoinLwp(s, j, t);
      case _ =>
    }
  }

  lemma FinishLwp(s: State, t: Tid)
    requires s.Cur().frame.Waiting? && s.current in s.threads
    ensures LwpSame(s, s.FinishWait(), t) && s.FinishWait().current == s.current && s.current in s.FinishWait().threads
  {
  }

  lemma EnterLwp(s: State, m: nat, t: Tid)
    requires s.current in s.threads
    ensures LwpSame(s, s.Enter(m), t) && LwpSame(s, s.TryEnter(m), t)
  {
  }

  lemma RejoinLwp(s: State, j: Tid, t: Tid)
    requires s.Cur().frame == Joining(j) && s.current in s.threads && j in s.threads
    ensures LwpSame(s, s.Unjoin().Join(j), t)
  {
  }

  lemma WaitLwp(s: State, q: Queue, d: int, after: After, t: Tid)
    requires s.current in s.threads
    ensures LwpSame(s, s.WaitOn(q, d, after), t)
  {
  }

  lemma ChooseLwp(s: State, tm: int, t: Tid)
    requires Inv(s) && s.HasReady(tm)
    ensures LwpSame(s, s.Choose(tm), t)
  {
    assert s.Next(tm) in s.runList;
  }

  lemma SimpleLwp(s: State, e: Event, t: Tid)
    requires s.current in s.threads && Enabled(s, e) && t in Apply(s, e).threads
    requires e.Create? || e.SetLwp? || e.Wake? || e.TryEnter? || e.Yield? || e.Sleep? || e.Join?
    ensures Apply(s, e).threads[t].lwp == LwpAfter(s, e, t, s.Thr(t).lwp)
    ensures t in s.threads || (e.Create? && e.t == t)
  {
  }

  lemma LwpStep(s: State, e: Event, t: Tid)
    requires Inv(s) && Enabled(s, e) && t in Apply(s, e).threads
    ensures Apply(s, e).threads[t].lwp == LwpAfter(s, e, t, s.Thr(t).lwp)
    ensures t in s.threads || (e.Create? && e.t == t)
  {
    hide Inv, State.WakeupOne, State.WakeupAll, State.Leave, State.Exit, State.Resume, State.WaitOn, State.TryEnter,
      State.Choose;
    AllThere(s);
    match e {
      case Signal(c) => WakeupOneLwp(s, OfCv(c), t);
      case Broadcast(c) => WakeupAllLwp(s, OfCv(c), t);
      case Leave(m) => LeaveLwp(s, m, t);
      case CvWait(c, m, d) =>
        LeaveLwp(s, m, t);
        WaitLwp(s.Leave(m), OfCv(c), d, Reacquire(m), t);
      case Wait(c, d) => WaitLwp(s, OfCv(c), d, Return, t);
      case Enter(m) => EnterLwp(s, m, t);
      case Exit => ExitLwp(s, t);
      case Resume => ResumeLwp(s, t);
      case Choose(tm) => ChooseLwp(s, tm, t);
      case _ => SimpleLwp(s, e, t);
    }
  }

  /** The lwp of a thread is what the thread itself has set last, whatever the others do. */
  lemma {:induction false} LwpIsLastSet(r: Run, n: nat, t: Tid)
    requires r.Valid() && n <= |r.events| && t in r.states[n].threads
    ensures r.states[n].threads[t].lwp == LastLwp(r, n, t)
  {
    hide Apply, Enabled, Inv;
    if n > 0 {
      RunKeeps(r, n - 1);
      var s, e := r.states[n - 1], r.events[n - 1];
      LwpStep(s, e, t);
      if t in s.threads {
        LwpIsLastSet(r, n - 1, t);
      }
    }
  }
}
