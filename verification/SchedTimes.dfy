/** Deadlines over whole runs: a thread that sleeps or waits with one is not chosen before it, and soon after. */
module SchedTimes {
  import opened Lists
  import opened SchedModel
  import opened SchedInvariant
  import opened SchedFairness
  import opened SchedWaits
  import opened SchedCalls

  /** Blocked until `d`, or for ever if that is negative, and not what the processor is executing. */
  predicate Asleep(s: State, t: Tid, d: int) {
    t in s.runList && !s.Thr(t).runnable && s.Thr(t).wakeup == d && (t == s.current ==> s.inSched)
  }

  /** The sleeps end in schedule() with the deadline set. */
  lemma SleepBlocks(r: Run, n: nat, d: int)
    requires r.Valid() && n < |r.events| && r.events[n] == Sleep(d)
    ensures Asleep(r.states[n + 1], r.states[n].current, d) && r.states[n + 1].inSched
    ensures r.states[n + 1].Cur().frame == Parked
  {
    RunKeeps(r, n);
  }

  // ----- what a step does to a thread that is not running -----

  /** The step wakes `t` by name or through its queue. */
  ghost predicate Rouses(s: State, e: Event, t: Tid) {
    e == Wake(t) || exists q :: Removes(s, e, q, t)
  }

  /** In a sleep or a wait, not in the join and exit handshake. */
  predicate Plain(f: Frame) {
    f.Parked? || f.Waiting?
  }

  /** Nothing happens to the thread but that it may be woken; and only by name or through its queue if it is Plain. */
  ghost predicate LeftAlone(s: State, e: Event, s': State, t: Tid) {
    && (s'.Thr(t) == s.Thr(t) || s'.Thr(t).runnable)
    && (Plain(s.Thr(t).frame) && !Rouses(s, e, t) ==> s'.Thr(t) == s.Thr(t))
  }

  lemma WakeupOneAlone(s: State, q: Queue, t: Tid)
    ensures s.WakeupOne(q).Thr(t) == s.Thr(t) || (s.Q(q) != [] && t == s.Q(q)[0] && s.WakeupOne(q).Thr(t).runnable)
    ensures s.WakeupOne(q).current == s.current && s.WakeupOne(q).runList == s.runList
  {
  }

  lemma {:induction false} WakeupAllAlone(s: State, q: Queue, t: Tid)
    ensures s.WakeupAll(q).Thr(t) == s.Thr(t) || (t in s.Q(q) && s.WakeupAll(q).Thr(t).runnable)
    decreases |s.Q(q)|
  {
    hide State.WakeupOne;
    if s.Q(q) != [] {
      WakeupOneAlone(s, q, t);
      WakeupOneShrinks(s, q);
      WakeupAllAlone(s.WakeupOne(q), q, t);
    }
  }

  lemma LeaveAlone(s: State, m: nat, t: Tid)
    requires s.Mtx(m).v > 0
    ensures s.Leave(m).Thr(t) == s.Thr(t) || (Removes(s, Leave(m), OfMutex(m), t) && s.Leave(m).Thr(t).runnable)
    ensures s.Leave(m).current == s.current && s.Leave(m).runList == s.runList
  {
    if s.Mtx(m).v == 1 {
      WakeupOneAlone(s.(mutexes := s.mutexes[m := Mutex(0, 0)]), OfMutex(m), t);
    }
  }

  lemma WaitAlone(s: State, q: Queue, d: int, after: After, t: Tid)
    requires t != s.current
    ensures s.WaitOn(q, d, after).Thr(t) == s.Thr(t) && s.WaitOn(q, d, after).runList == s.runList
  {
  }

  lemma ExitAlone(s: State, t: Tid)
    requires Inv(s) && !s.inSched && !s.Cur().frame.Joining? && t != s.current
    ensures s.Exit().Thr(t) == s.Thr(t) || (s.Thr(t).frame.Joining? && s.Exit().Thr(t).runnable)
  {
    var k := s.JoinerOf(s.current);
    if k < |s.joinq| {
      JoinerIsOther(s, k);
      assert s.joinq[k] in s.joinq;
    }
  }

  lemma JoinAlone(s: State, j: Tid, t: Tid)
    requires Inv(s) && t != s.current
    ensures s.Join(j).Thr(t) == s.Thr(t) || (s.Join(j).Thr(t).runnable && !Plain(s.Thr(t).frame))
  {
  }

  lemma ResumeAlone(s: State, t: Tid)
    requires Inv(s) && Enabled(s, Resume) && t != s.current
    ensures s.Resume().Thr(t) == s.Thr(t) || (s.Resume().Thr(t).runnable && !Plain(s.Thr(t).frame))
  {
    hide Inv, State.Join, State.Exit, State.FinishWait, State.Unjoin;
    match s.Cur().frame {
      case Waiting(_, _, after) =>
        WaitEnds(s, t);
        if after.Retry? {
          WaitAlone(s.FinishWait(), OfMutex(after.m), NEVER, after, t);
        }
      case Joining(j) =>
        UnjoinKeeps(s);
        UnjoinAlone(s, t);
        JoinAlone(s.Unjoin(), j, t);
      case ExitGate => ExitAlone(s, t);
      case _ =>
    }
  }

  lemma UnjoinAlone(s: State, t: Tid)
    requires s.Cur().frame.Joining? && t != s.current
    ensures s.Unjoin().Thr(t) == s.Thr(t) && s.Unjoin().current == s.current
  {
  }

  lemma SimpleAlone(s: State, e: Event, t: Tid)
    requires Enabled(s, e) && t in s.threads && (t == s.current ==> s.inSched)
    requires e.Create? || e.SetLwp? || e.Wake? || e.TryEnter? || e.Yield? || e.Sleep?
    ensures LeftAlone(s, e, Apply(s, e), t)
  {
  }

  lemma CallAlone(s: State, e: Event, t: Tid)
    requires Inv(s) && Enabled(s, e) && t in s.threads && t != s.current
    requires e.Signal? || e.Broadcast? || e.Leave? || e.CvWait? || e.Wait? || e.Enter?
    ensures LeftAlone(s, e, Apply(s, e), t)
  {
    hide Inv, State.WakeupOne, State.WakeupAll, State.Leave, State.WaitOn, State.TryEnter, Plain;
    match e {
      case Signal(c) =>
        WakeupOneAlone(s, OfCv(c), t);
        assert s.Q(OfCv(c)) != [] && t == s.Q(OfCv(c))[0] ==> Removes(s, e, OfCv(c), t);
      case Broadcast(c) =>
        WakeupAllAlone(s, OfCv(c), t);
        assert t in s.Q(OfCv(c)) ==> Removes(s, e, OfCv(c), t);
      case Leave(m) => LeaveAlone(s, m, t);
      case CvWait(c, m, d) =>
        LeaveAlone(s, m, t);
        WaitAlone(s.Leave(m), OfCv(c), d, Reacquire(m), t);
        assert Removes(s, Leave(m), OfMutex(m), t) ==> Removes(s, e, OfMutex(m), t);
      case Wait(c, d) => WaitAlone(s, OfCv(c), d, Return, t);
      case Enter(m) =>
        WaitAlone(s, OfMutex(m), NEVER, Retry(m), t);
        TryAlone(s, m);
    }
  }

  lemma TryAlone(s: State, m: nat)
    ensures s.TryEnter(m).threads == s.threads
  {
  }

  lemma ChooseAlone(s: State, tm: int, t: Tid)
    requires Inv(s) && s.HasReady(tm) && t in s.runList && s.Next(tm) != t
    ensures s.Choose(tm).Thr(t) == s.Thr(t) && s.Choose(tm).current != t
    ensures s.Choose(tm).runList == Remove(s.runList, s.Next(tm)) + [s.Next(tm)]
  {
  }

  lemma StepAlone(s: State, e: Event, t: Tid)
    requires Inv(s) && Enabled(s, e) && t in s.runList && (t == s.current ==> s.inSched) && !Picks(s, e, t)
    ensures LeftAlone(s, e, Apply(s, e), t)
  {
    hide Inv, State.Join, State.Exit, State.Resume, State.Choose;
    ListedIsThere(s, t);
    match e {
      case Join(j) => JoinAlone(s, j, t);
      case Exit => ExitAlone(s, t);
      case Resume => ResumeAlone(s, t);
      case Choose(tm) => ChooseAlone(s, tm, t);
      case Signal(_) => CallAlone(s, e, t);
      case Broadcast(_) => CallAlone(s, e, t);
      case Leave(_) => CallAlone(s, e, t);
      case CvWait(_, _, _) => CallAlone(s, e, t);
      case Wait(_, _) => CallAlone(s, e, t);
      case Enter(_) => CallAlone(s, e, t);
      case _ => SimpleAlone(s, e, t);
    }
  }

  lemma ListedIsThere(s: State, t: Tid)
    requires Inv(s) && t in s.runList
    ensures t in s.threads && !s.Thr(t).frame.Gone? && NoDup(s.runList)
  {
  }

  // ----- what it does to the line -----

  lemma LineKept(s: State, e: Event)
    requires Inv(s) && Enabled(s, e) && !e.Choose? && !e.Create? && !e.Wake?
    ensures SameLine(s, Apply(s, e))
  {
    hide Inv;
    match e {
      case Broadcast(c) => WakeupAllStays(s, OfCv(c));
      case Resume => ResumeLine(s);
      case _ =>
    }
  }

  lemma ResumeLine(s: State)
    requires Enabled(s, Resume)
    ensures SameLine(s, s.Resume())
  {
    if s.Cur().frame.Waiting? {
      FinishStays(s);
    }
  }

  /** A thread that is not running moves no further back, and forward with every choice at which it is ready. */
  lemma PlaceStep(s: State, e: Event, t: Tid)
    requires Inv(s) && Enabled(s, e) && t in s.runList && (t == s.current ==> s.inSched) && !Picks(s, e, t)
    requires e.Choose? ==> s.Thr(t).ReadyAt(e.tm)
    ensures t in Apply(s, e).runList && (t == Apply(s, e).current ==> Apply(s, e).inSched)
    ensures Place(Apply(s, e), t) + (if e.Choose? then 1 else 0) <= Place(s, t)
  {
    hide Inv, State.Choose, IndexOf, State.HasReady, State.Next;
    match e {
      case Choose(tm) => ChoosePlace(s, tm, t);
      case Create(x, _) => IndexAfterAppend(s.runList, [x], t);
      case Wake(_) =>
      case _ => OtherPlace(s, e, t);
    }
  }

  lemma ChoosePlace(s: State, tm: int, t: Tid)
    requires Inv(s) && Enabled(s, Choose(tm)) && t in s.runList && s.Next(tm) != t && s.Thr(t).ReadyAt(tm)
    ensures t in s.Choose(tm).runList && t != s.Choose(tm).current
    ensures Place(s.Choose(tm), t) == Place(s, t) - 1
  {
    hide Inv, State.Choose;
    ListedIsThere(s, t);
    ChooseAlone(s, tm, t);
    assert s.FirstReady(tm) < Place(s, t);
    IndexAfterRotate(s.runList, s.FirstReady(tm), t);
  }

  lemma OtherPlace(s: State, e: Event, t: Tid)
    requires Inv(s) && Enabled(s, e) && t in s.runList && (t == s.current ==> s.inSched)
    requires !e.Choose? && !e.Create? && !e.Wake?
    ensures t in Apply(s, e).runList && t != Apply(s, e).current && Place(Apply(s, e), t) <= Place(s, t)
  {
    hide Inv, Apply;
    assert t != s.current;
    ListedIsThere(s, t);
    LineKept(s, e);
    IndexAfterRemove(s.runList, s.current, t);
  }

  /**
   * A chosen thread runs, without a deadline any more, back in the application unless it has a call to finish;
   * it is marked as timed out exactly if its deadline is what made it ready.
   */
  lemma ChosenRuns(r: Run, n: nat, t: Tid)
    requires r.Valid() && n < |r.events| && Picks(r.states[n], r.events[n], t)
    ensures var s, s' := r.states[n], r.states[n + 1];
            && s'.current == t && !s'.inSched && s'.Cur().runnable && s'.Cur().wakeup == NEVER
            && s'.Cur().timedOut == (s.Thr(t).timedOut || !s.Thr(t).runnable)
            && s'.Cur().frame == (if s.Thr(t).frame.Fresh? || s.Thr(t).frame.Parked? then User else s.Thr(t).frame)
  {
    hide Inv, State.Choose, State.HasReady, State.Next;
    RunKeeps(r, n);
    ChooseRuns(r.states[n], r.events[n].tm);
  }

  lemma ChooseRuns(s: State, tm: int)
    requires Inv(s) && s.HasReady(tm)
    ensures var s', t := s.Choose(tm), s.Next(tm);
            && s'.current == t && !s'.inSched && t in s'.threads
            && s'.threads[t] == s.Dispatched(s.Thr(t)) && WellGated(s.Thr(t))
  {
    assert s.Next(tm) in s.runList;
  }

  // ----- whole runs -----

  /** Nobody chooses or rouses the thread in events `from` to `to`. */
  ghost predicate Undisturbed(r: Run, from: nat, to: nat, t: Tid)
    requires r.Valid() && from <= to <= |r.events|
  {
    forall i | from <= i < to :: !Picks(r.states[i], r.events[i], t) && !Rouses(r.states[i], r.events[i], t)
  }

  lemma {:induction false} SleepsOn(r: Run, from: nat, to: nat, t: Tid, d: int)
    requires r.Valid() && from <= to <= |r.events| && Undisturbed(r, from, to, t)
    requires Asleep(r.states[from], t, d) && Plain(r.states[from].Thr(t).frame)
    ensures Asleep(r.states[to], t, d) && r.states[to].Thr(t) == r.states[from].Thr(t)
  {
    hide Apply, Enabled, Inv, Rouses, Picks;
    if from < to {
      SleepsOn(r, from, to - 1, t, d);
      RunKeeps(r, to - 1);
      AsleepStep(r.states[to - 1], r.events[to - 1], t, d);
    }
  }

  lemma AsleepStep(s: State, e: Event, t: Tid, d: int)
    requires Inv(s) && Enabled(s, e) && Asleep(s, t, d) && !Picks(s, e, t) && !Rouses(s, e, t) && Plain(s.Thr(t).frame)
    ensures Asleep(Apply(s, e), t, d) && Apply(s, e).Thr(t) == s.Thr(t)
  {
    hide Inv, Rouses, Apply;
    StepAlone(s, e, t);
    StaysListed(s, e, t);
  }

  lemma StaysListed(s: State, e: Event, t: Tid)
    requires Inv(s) && Enabled(s, e) && t in s.runList && (t == s.current ==> s.inSched) && !Picks(s, e, t)
    ensures t in Apply(s, e).runList && (t == Apply(s, e).current ==> Apply(s, e).inSched)
  {
    hide Inv, State.Choose;
    match e {
      case Choose(tm) => ChooseAlone(s, tm, t);
      case Create(_, _) =>
      case Wake(_) =>
      case _ => OtherPlace(s, e, t);
    }
  }

  /**
   * Not before: a thread in a sleep or a wait with deadline d that nobody wakes by name or through its
   * queue stays blocked, and if it is chosen, it has a deadline and the clock has reached it.
   */
  lemma NotBeforeDeadline(r: Run, from: nat, to: nat, t: Tid, d: int)
    requires r.Valid() && from <= to < |r.events| && Undisturbed(r, from, to, t)
    requires Asleep(r.states[from], t, d) && Plain(r.states[from].Thr(t).frame)
    ensures Asleep(r.states[to], t, d)
    ensures Picks(r.states[to], r.events[to], t) ==> 0 <= d <= r.events[to].tm
  {
    SleepsOn(r, from, to, t, d);
  }

  /** Blocked until `d`, or in line. */
  predicate Due(s: State, t: Tid, d: int) {
    Asleep(s, t, d) || InLine(s, t)
  }

  lemma DueStep(s: State, e: Event, t: Tid, d: int)
    requires Inv(s) && Enabled(s, e) && Due(s, t, d) && 0 <= d && !Picks(s, e, t) && (e.Choose? ==> e.tm >= d)
    ensures Due(Apply(s, e), t, d) && Place(Apply(s, e), t) + (if e.Choose? then 1 else 0) <= Place(s, t)
  {
    hide Inv, Apply, Rouses;
    StepAlone(s, e, t);
    PlaceStep(s, e, t);
  }

  lemma {:induction false} StaysDue(r: Run, from: nat, to: nat, t: Tid, d: int)
    requires r.Valid() && from <= to <= |r.events| && Due(r.states[from], t, d) && 0 <= d
    requires forall i | from <= i < to :: !Picks(r.states[i], r.events[i], t)
    requires forall i | from <= i < to && r.events[i].Choose? :: r.events[i].tm >= d
    ensures Due(r.states[to], t, d) && Place(r.states[to], t) + Choices(r, from, to) <= Place(r.states[from], t)
  {
    hide Inv, Apply, Enabled, Place, Picks, Due;
    if from < to {
      StaysDue(r, from, to - 1, t, d);
      RunKeeps(r, to - 1);
      DueStep(r.states[to - 1], r.events[to - 1], t, d);
    }
  }

  /**
   * And soon after: once the clock has reached the deadline of a thread at place k, it is chosen before
   * more than k other choices are made.
   */
  lemma SoonAfterDeadline(r: Run, from: nat, to: nat, t: Tid, d: int)
    requires r.Valid() && from <= to <= |r.events| && Asleep(r.states[from], t, d) && 0 <= d
    requires forall i | from <= i < to && r.events[i].Choose? :: r.events[i].tm >= d
    requires Choices(r, from, to) > Place(r.states[from], t)
    ensures exists i | from <= i < to :: Picks(r.states[i], r.events[i], t)
                                      && Choices(r, from, i) <= Place(r.states[from], t)
  {
    hide Apply, Enabled, Place, Picks, Asleep;
    var i := from;
    while i < to && !Picks(r.states[i], r.events[i], t)
      invariant from <= i <= to
      invariant forall k | from <= k < i :: !Picks(r.states[k], r.events[k], t)
    {
      i := i + 1;
    }
    StaysDue(r, from, i, t, d);
  }
}
