/** Threads from creation to release: the join/exit handshake and the exited list, over whole runs. */
module SchedLifecycle {
  import opened SchedModel
  import opened SchedInvariant

  /** join_thread(j) hands control back to its caller in this step. */
  predicate JoinReturns(s: State, e: Event, j: Tid)
    requires Enabled(s, e)
  {
    (e == Join(j) || (e.Resume? && s.Cur().frame == Joining(j))) && Free(Apply(s, e))
  }

  predicate Exits(s: State, e: Event, t: Tid) {
    e.Exit? && s.current == t
  }

  /** The thread has called exit_thread(). */
  predicate Arrived(f: Frame) {
    f.ExitGate? || f.Gone?
  }

  // ----- join_thread() returns only after exit_thread() -----

  lemma {:induction false} WakeupAllKeepsThread(s: State, q: Queue, t: Tid)
    requires Inv(s)
    ensures t in s.WakeupAll(q).threads <==> t in s.threads
    ensures s.WakeupAll(q).Thr(t).frame == s.Thr(t).frame || s.WakeupAll(q).Thr(t).frame.Waiting?
    ensures s.WakeupAll(q).Thr(t).mustJoin == s.Thr(t).mustJoin
    ensures s.WakeupAll(q) == s.(threads := s.WakeupAll(q).threads, queues := s.WakeupAll(q).queues)
    decreases |s.Q(q)|
  {
    if s.Q(q) != [] {
      WakeupOneKeepsThread(s, q, t);
      WakeupOneKeeps(s, q);
      hide Inv, State.WakeupOne;
      WakeupAllKeepsThread(s.WakeupOne(q), q, t);
    }
  }

  lemma WakeupOneKeepsThread(s: State, q: Queue, t: Tid)
    requires Inv(s)
    ensures t in s.WakeupOne(q).threads <==> t in s.threads
    ensures s.WakeupOne(q).Thr(t).frame == s.Thr(t).frame || s.WakeupOne(q).Thr(t).frame.Waiting?
    ensures s.WakeupOne(q).Thr(t).mustJoin == s.Thr(t).mustJoin
    ensures s.WakeupOne(q) == s.(threads := s.WakeupOne(q).threads, queues := s.WakeupOne(q).queues)
  {
    if s.Q(q) != [] {
      assert s.Q(q)[0] in s.Q(q);
    }
  }

  /** What a step may do to a thread, seen from the handshake. */
  predicate Follows(s: State, s': State, t: Tid, exits: bool, joined: bool) {
    && (t in s'.threads && Arrived(s'.threads[t].frame) ==> (t in s.threads && Arrived(s.threads[t].frame)) || exits)
    && (t in s.threads && s.threads[t].mustJoin ==> t in s'.threads && (s'.threads[t].mustJoin || joined))
    && s.freed <= s'.freed
  }

  lemma CallFollows(s: State, e: Event, t: Tid)
    requires Inv(s) && Enabled(s, e)
      && (e.Create? || e.SetLwp? || e.Wake? || e.TryEnter? || e.Yield? || e.Sleep? || e.Wait? || e.Enter?)
    ensures Follows(s, Apply(s, e), t, false, false)
  {
  }

  lemma WakerFollows(s: State, e: Event, t: Tid)
    requires Inv(s) && Enabled(s, e) && (e.Signal? || e.Broadcast? || e.Leave? || e.CvWait?)
    ensures Follows(s, Apply(s, e), t, false, false)
  {
    hide Inv, State.WakeupOne, State.WakeupAll;
    match e {
      case Signal(c) => WakeupOneKeepsThread(s, OfCv(c), t);
      case Broadcast(c) => WakeupAllKeepsThread(s, OfCv(c), t);
      case Leave(m) => LeaveKeepsThread(s, m, t);
      case CvWait(c, m, d) => LeaveKeepsThread(s, m, t);
    }
  }

  lemma LeaveKeepsThread(s: State, m: nat, t: Tid)
    requires Inv(s) && Free(s) && s.Mtx(m).v > 0
    ensures t in s.Leave(m).threads <==> t in s.threads
    ensures s.Leave(m).Thr(t).frame == s.Thr(t).frame || s.Leave(m).Thr(t).frame.Waiting?
    ensures s.Leave(m).Thr(t).mustJoin == s.Thr(t).mustJoin
    ensures s.Leave(m).freed == s.freed && s.Leave(m).current == s.current && Free(s.Leave(m))
  {
    LeaveKeeps(s, m);
    if s.Mtx(m).v == 1 {
      WakeupOneKeepsThread(s.(mutexes := s.mutexes[m := Mutex(0, 0)]), OfMutex(m), t);
    }
  }

  lemma JoinFollows(s: State, j: Tid, t: Tid)
    requires Inv(s) && Enabled(s, Join(j))
    ensures Follows(s, s.Join(j), t, false, j == t && Free(s.Join(j)))
  {
  }

  lemma ExitFollows(s: State, t: Tid)
    requires Inv(s) && !s.inSched
    ensures Follows(s, s.Exit(), t, t == s.current, false)
  {
    hide State.Gate, State.LeaveForGood;
    if s.Cur().mustJoin {
      GateGoesOn(s, t);
    } else {
      LeaveGoesOn(s, t);
    }
  }

  lemma GateGoesOn(s: State, t: Tid)
    requires Inv(s) && !s.inSched
    ensures Follows(s, s.Gate(), t, t == s.current, false)
  {
  }

  lemma LeaveGoesOn(s: State, t: Tid)
    requires s.current in s.threads && !s.Cur().mustJoin
    ensures Follows(s, s.LeaveForGood(), t, t == s.current, false)
  {
  }

  /** Reaping takes only threads that are gone, which need no joiner. */
  lemma ChooseFollows(s: State, tm: int, t: Tid)
    requires Inv(s) && s.inSched && s.HasReady(tm)
    ensures Follows(s, s.Choose(tm), t, false, false)
  {
    hide Inv;
    ExitedNeedNoJoin(s, t);
  }

  lemma ExitedNeedNoJoin(s: State, t: Tid)
    requires Inv(s)
    ensures t in s.exited ==> t in s.threads && !s.threads[t].mustJoin
  {
  }

  lemma FinishFollows(s: State, t: Tid)
    requires s.Cur().frame.Waiting?
    ensures Follows(s, s.FinishWait(), t, false, false)
    ensures Free(s.FinishWait()) == !s.inSched
  {
  }

  lemma RetryFollows(s: State, m: nat, t: Tid)
    requires Free(s)
    ensures Follows(s, s.Enter(m), t, false, false)
    ensures Follows(s, s.TryEnter(m), t, false, false)
  {
  }

  lemma UnjoinFollows(s: State, t: Tid)
    requires s.Cur().frame.Joining?
    ensures Follows(s, s.Unjoin(), t, false, false)
  {
  }

  lemma FollowsTwice(s: State, s1: State, s2: State, t: Tid, exits: bool, joined: bool)
    requires Follows(s, s1, t, false, false) && Follows(s1, s2, t, exits, joined)
    ensures Follows(s, s2, t, exits, joined)
  {
  }

  lemma ResumeFollows(s: State, t: Tid)
    requires Inv(s) && Enabled(s, Resume)
    ensures Follows(s, s.Resume(), t, false, JoinReturns(s, Resume, t))
  {
    match s.Cur().frame {
      case Waiting(_, _, _) => WaitFollows(s, t);
      case Joining(_) => RejoinFollows(s, t);
      case ExitGate => GateFollows(s, t);
      case _ =>
    }
  }

  lemma WaitFollows(s: State, t: Tid)
    requires Enabled(s, Resume) && s.Cur().frame.Waiting?
    ensures Follows(s, s.Resume(), t, false, JoinReturns(s, Resume, t))
  {
    hide Follows, State.FinishWait, State.Enter, State.TryEnter, JoinReturns;
    var after := s.Cur().frame.after;
    FinishFollows(s, t);
    if !after.Return? {
      RetryFollows(s.FinishWait(), after.m, t);
      FollowsTwice(s, s.FinishWait(), s.Resume(), t, false, false);
    }
    FollowsMore(s, s.Resume(), t, false, JoinReturns(s, Resume, t));
  }

  lemma RejoinFollows(s: State, t: Tid)
    requires Inv(s) && Enabled(s, Resume) && s.Cur().frame.Joining?
    ensures Follows(s, s.Resume(), t, false, JoinReturns(s, Resume, t))
  {
    hide Inv, Follows, State.Unjoin, State.Join;
    var j := s.Cur().frame.target;
    UnjoinFollows(s, t);
    UnjoinKeeps(s);
    JoinFollows(s.Unjoin(), j, t);
    FollowsTwice(s, s.Unjoin(), s.Resume(), t, false, j == t && Free(s.Resume()));
  }

  lemma FollowsMore(s: State, s': State, t: Tid, exits: bool, joined: bool)
    requires Follows(s, s', t, false, false)
    ensures Follows(s, s', t, exits, joined)
  {
  }

  lemma GateFollows(s: State, t: Tid)
    requires Inv(s) && !s.inSched && s.Cur().frame.ExitGate?
    ensures Follows(s, s.Exit(), t, false, JoinReturns(s, Resume, t))
  {
    ExitFollows(s, t);
    hide State.Exit, Inv;
  }

  lemma StepFollows(s: State, e: Event, t: Tid)
    requires Inv(s) && Enabled(s, e)
    ensures Follows(s, Apply(s, e), t, Exits(s, e, t), JoinReturns(s, e, t))
  {
    hide Inv, Follows, JoinReturns;
    match e {
      case Join(j) => JoinIsReturn(s, j, t);
      case Exit => ExitIsExit(s, t);
      case Resume => ResumeFollows(s, t);
      case _ =>
        CallerFollows(s, e, t);
        FollowsMore(s, Apply(s, e), t, Exits(s, e, t), JoinReturns(s, e, t));
    }
  }

  lemma JoinIsReturn(s: State, j: Tid, t: Tid)
    requires Inv(s) && Enabled(s, Join(j))
    ensures Follows(s, s.Join(j), t, Exits(s, Join(j), t), JoinReturns(s, Join(j), t))
  {
    hide Inv, Follows, State.Join;
    JoinFollows(s, j, t);
  }

  lemma ExitIsExit(s: State, t: Tid)
    requires Inv(s) && Enabled(s, Exit)
    ensures Follows(s, s.Exit(), t, Exits(s, Exit, t), JoinReturns(s, Exit, t))
  {
    ExitFollows(s, t);
    hide Inv, State.Exit;
  }

  lemma CallerFollows(s: State, e: Event, t: Tid)
    requires Inv(s) && Enabled(s, e) && !e.Join? && !e.Exit? && !e.Resume?
    ensures Follows(s, Apply(s, e), t, false, false)
  {
    hide Inv, Follows;
    match e {
      case Signal(_) => WakerFollows(s, e, t);
      case Broadcast(_) => WakerFollows(s, e, t);
      case Leave(_) => WakerFollows(s, e, t);
      case CvWait(_, _, _) => WakerFollows(s, e, t);
      case Choose(tm) => ChooseFollows(s, tm, t);
      case _ => CallFollows(s, e, t);
    }
  }

  /** A thread in or past the exit gate has called exit_thread() before. */
  lemma {:induction false} ArrivedMeansExited(r: Run, n: nat, t: Tid)
    requires r.Valid() && n < |r.states|
    requires t in r.states[n].threads && Arrived(r.states[n].threads[t].frame)
    ensures exists k | 0 <= k < n :: Exits(r.states[k], r.events[k], t)
  {
    hide Apply, Enabled, Inv, JoinReturns, Exits;
    if n > 0 {
      RunKeeps(r, n - 1);
      StepFollows(r.states[n - 1], r.events[n - 1], t);
      if !Exits(r.states[n - 1], r.events[n - 1], t) {
        ArrivedMeansExited(r, n - 1, t);
      }
    }
  }

  /** join_thread() returns only when its target waits in the exit gate, after its exit_thread(). */
  lemma JoinReturnsAfterExit(r: Run, n: nat, j: Tid)
    requires r.Valid() && n < |r.events| && JoinReturns(r.states[n], r.events[n], j)
    ensures j in r.states[n].runList && r.states[n].Thr(j).frame.ExitGate?
    ensures exists k | 0 <= k < n :: Exits(r.states[k], r.events[k], j)
  {
    RunKeeps(r, n);
    TargetIsGated(r.states[n], r.events[n], j);
    hide Apply, Enabled, Inv, JoinReturns, Exits;
    ArrivedMeansExited(r, n, j);
  }

  lemma TargetIsGated(s: State, e: Event, j: Tid)
    requires Inv(s) && Enabled(s, e) && JoinReturns(s, e, j)
    ensures j in s.runList && s.Thr(j).frame.ExitGate?
  {
    if e.Resume? {
      UnjoinKeeps(s);
    }
  }

  /** A joiner and its target never both sleep waiting for each other. */
  lemma NeverBothBlocked(r: Run, n: nat, a: Tid, j: Tid)
    requires r.Valid() && n < |r.states|
    requires a in r.states[n].threads && r.states[n].threads[a].frame == Joining(j)
    ensures j in r.states[n].runList
    ensures r.states[n].Thr(j).frame.ExitGate? ==> r.states[n].threads[a].runnable
    ensures r.states[n].Thr(j).frame.ExitGate? && !r.states[n].Thr(j).runnable ==> r.states[n].Thr(j).mustJoin
  {
    RunKeeps(r, n);
    var s := r.states[n];
    assert WellJoining(s.threads, s.joinq, a, s.threads[a]);
    assert WellGated(s.threads[j]);
  }

  /** A thread created joinable stays on the run list until some join_thread() for it has returned. */
  lemma {:induction false} LeavesOnlyAfterJoin(r: Run, c: nat, n: nat, t: Tid)
    requires r.Valid() && c < n < |r.states| && r.events[c] == Create(t, true)
    ensures (t in r.states[n].threads && r.states[n].threads[t].mustJoin && t in r.states[n].runList)
            || exists k | c < k < n :: JoinReturns(r.states[k], r.events[k], t)
  {
    hide Apply, Enabled, Inv, JoinReturns, Exits;
    RunKeeps(r, n);
    MustJoinIsListed(r.states[n], t);
    if n == c + 1 {
      CreatedMustJoin(r.states[c], t);
    } else {
      LeavesOnlyAfterJoin(r, c, n - 1, t);
      RunKeeps(r, n - 1);
      StepFollows(r.states[n - 1], r.events[n - 1], t);
    }
  }

  lemma CreatedMustJoin(s: State, t: Tid)
    requires Enabled(s, Create(t, true))
    ensures t in Apply(s, Create(t, true)).threads && Apply(s, Create(t, true)).threads[t].mustJoin
  {
  }

  lemma MustJoinIsListed(s: State, t: Tid)
    requires Inv(s)
    ensures t in s.threads && s.threads[t].mustJoin ==> t in s.runList
  {
  }

  // ----- the exited list -----

  /** schedule() frees thread `t` in this step. */
  predicate Frees(s: State, e: Event, t: Tid) {
    e.Choose? && s.HasReady(e.tm) && !s.Thr(s.Next(e.tm)).frame.Fresh? && t in s.exited && t != s.Next(e.tm)
  }

  /** Nobody else is freed: only a thread that has been switched to before frees, and only what has exited. */
  lemma FreedExactly(r: Run, n: nat, t: Tid)
    requires r.Valid() && n < |r.events|
    ensures t in r.states[n + 1].freed <==> t in r.states[n].freed || Frees(r.states[n], r.events[n], t)
  {
    hide Inv, Frees;
    FreedStep(r.states[n], r.events[n], t);
  }

  lemma FreedStep(s: State, e: Event, t: Tid)
    requires Enabled(s, e)
    ensures t in Apply(s, e).freed <==> t in s.freed || Frees(s, e, t)
  {
    match e {
      case Broadcast(c) => WakeupAllFrees(s, OfCv(c));
      case Resume => ResumeFrees(s);
      case _ =>
    }
  }

  lemma {:induction false} WakeupAllFrees(s: State, q: Queue)
    ensures s.WakeupAll(q).freed == s.freed
    decreases |s.Q(q)|
  {
    if s.Q(q) != [] {
      WakeupAllFrees(s.WakeupOne(q), q);
    }
  }

  lemma ResumeFrees(s: State)
    ensures s.Resume().freed == s.freed
  {
    if s.Cur().frame.Waiting? {
      assert s.FinishWait().freed == s.freed;
      hide State.FinishWait;
    }
  }

  lemma FreesIsFinal(s: State, e: Event, t: Tid)
    requires Inv(s) && Enabled(s, e) && Frees(s, e, t)
    ensures t in s.threads && t !in s.freed && t in Apply(s, e).freed
    ensures Apply(s, e).exited == []
  {
    ChooseKeeps(s, e.tm);
    assert s.Next(e.tm) !in s.exited;
  }

  lemma {:induction false} FreedForever(r: Run, i: nat, n: nat, t: Tid)
    requires r.Valid() && i <= n < |r.states| && t in r.states[i].freed
    ensures t in r.states[n].freed
  {
    hide Apply, Enabled, Inv, JoinReturns, Exits;
    if i < n {
      FreedForever(r, i, n - 1, t);
      RunKeeps(r, n - 1);
      StepFollows(r.states[n - 1], r.events[n - 1], t);
    }
  }

  /** What is freed is never again running, listed, waiting or freed. */
  lemma FreedOnceAndForAll(r: Run, i: nat, n: nat, t: Tid)
    requires r.Valid() && i < n < |r.states| && Frees(r.states[i], r.events[i], t)
    ensures t !in r.states[n].threads && t != r.states[n].current
    ensures t !in r.states[n].runList && t !in r.states[n].exited
    ensures forall q :: t !in r.states[n].Q(q)
    ensures n < |r.events| ==> !Frees(r.states[n], r.events[n], t)
  {
    RunKeeps(r, i);
    FreesIsFinal(r.states[i], r.events[i], t);
    hide Apply, Enabled;
    FreedForever(r, i + 1, n, t);
    RunKeeps(r, n);
    FreedIsNowhere(r.states[n], t);
  }

  lemma FreedIsNowhere(s: State, t: Tid)
    requires Inv(s) && t in s.freed
    ensures t !in s.threads && t != s.current && t !in s.runList && t !in s.exited
    ensures forall q :: t !in s.Q(q)
  {
  }
}
