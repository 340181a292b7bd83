/** Bounded bypass: round robin gives every waiting runnable thread its turn, in list order. */
module SchedFairness {
  import opened Lists
  import opened SchedModel
  import opened SchedInvariant

  /** Runnable, on the run list, and not what the processor is executing. */
  predicate InLine(s: State, t: Tid) {
    t in s.runList && s.Thr(t).runnable && (t == s.current ==> s.inSched)
  }

  function Place(s: State, t: Tid): nat {
    IndexOf(s.runList, t)
  }

  predicate Picks(s: State, e: Event, t: Tid) {
    e.Choose? && s.HasReady(e.tm) && s.Next(e.tm) == t
  }

  // ----- nobody takes another thread's runnable flag away -----

  lemma {:induction false} WakeupAllKeepsRunnable(s: State, q: Queue, t: Tid)
    requires s.Thr(t).runnable
    ensures s.WakeupAll(q).Thr(t).runnable
    ensures s.WakeupAll(q) == s.(threads := s.WakeupAll(q).threads, queues := s.WakeupAll(q).queues)
    decreases |s.Q(q)|
  {
    if s.Q(q) != [] {
      WakeupAllKeepsRunnable(s.WakeupOne(q), q, t);
    }
  }

  /** The same threads in the same order, or without the one that is running. */
  predicate SameLine(s: State, s': State) {
    s'.current == s.current && (s'.runList == s.runList || s'.runList == Remove(s.runList, s.current))
  }

  lemma WaitEnds(s: State, t: Tid)
    requires s.Cur().frame.Waiting? && t != s.current
    ensures s.FinishWait().Thr(t) == s.Thr(t) && s.FinishWait().current == s.current
      && s.FinishWait().runList == s.runList
  {
  }

  lemma WaitingResumes(s: State, t: Tid)
    requires s.Cur().frame.Waiting? && t != s.current && s.Thr(t).runnable
    ensures SameLine(s, s.Resume()) && s.Resume().Thr(t).runnable
  {
    hide State.FinishWait;
    WaitEnds(s, t);
  }

  lemma JoiningResumes(s: State, t: Tid)
    requires s.Cur().frame.Joining? && t != s.current && s.Thr(t).runnable
    ensures SameLine(s, s.Resume()) && s.Resume().Thr(t).runnable
  {
  }

  lemma ExitKeepsRunnable(s: State, t: Tid)
    requires t != s.current && s.Thr(t).runnable
    ensures SameLine(s, s.Exit()) && s.Exit().Thr(t).runnable
  {
  }

  lemma CallKeepsRunnable(s: State, e: Event, t: Tid)
    requires Enabled(s, e) && !s.inSched && !e.Wake? && !e.Create?
    requires t != s.current && s.Thr(t).runnable
    ensures SameLine(s, Apply(s, e)) && Apply(s, e).Thr(t).runnable
  {
    match e {
      case Broadcast(c) => WakeupAllKeepsRunnable(s, OfCv(c), t);
      case Exit => ExitKeepsRunnable(s, t);
      case Resume =>
        match s.Cur().frame {
          case Waiting(_, _, _) => WaitingResumes(s, t);
          case Joining(_) => JoiningResumes(s, t);
          case ExitGate => ExitKeepsRunnable(s, t);
          case _ =>
        }
      case _ =>
    }
  }

  /** A step that is not the scheduler's leaves the line as it is, or shortens it. */
  lemma CallKeepsLine(s: State, e: Event, t: Tid)
    requires Inv(s) && Enabled(s, e) && InLine(s, t) && !e.Choose?
    ensures InLine(Apply(s, e), t) && Place(Apply(s, e), t) <= Place(s, t)
  {
    if e.Create? {
      IndexAfterAppend(s.runList, [e.t], t);
    } else if e.Wake? {
    } else {
      hide Apply, Inv;
      CallKeepsRunnable(s, e, t);
      assert NoDup(s.runList) by { ListIsOne(s); }
      IndexAfterRemove(s.runList, s.current, t);
    }
  }

  lemma ListIsOne(s: State)
    requires Inv(s)
    ensures NoDup(s.runList)
  {
  }

  /** A choice takes the thread itself, or moves it one place up. */
  lemma ChoiceAdvances(s: State, tm: int, t: Tid)
    requires Inv(s) && Enabled(s, Choose(tm)) && InLine(s, t) && s.Next(tm) != t
    ensures InLine(s.Choose(tm), t) && Place(s.Choose(tm), t) == Place(s, t) - 1
  {
    hide Inv, State.Choose;
    ChoiceKeepsRunnable(s, tm, t);
    ListIsOne(s);
    assert s.FirstReady(tm) < Place(s, t);
    IndexAfterRotate(s.runList, s.FirstReady(tm), t);
  }

  lemma ChoiceKeepsRunnable(s: State, tm: int, t: Tid)
    requires Inv(s) && s.HasReady(tm) && t in s.runList && s.Thr(t).runnable && s.Next(tm) != t
    ensures s.Choose(tm).Thr(t).runnable && s.Choose(tm).current != t
    ensures s.Choose(tm).runList == Remove(s.runList, s.Next(tm)) + [s.Next(tm)]
  {
  }

  lemma StepAdvances(s: State, e: Event, t: Tid)
    requires Inv(s) && Enabled(s, e) && InLine(s, t) && !Picks(s, e, t)
    ensures InLine(Apply(s, e), t)
    ensures Place(Apply(s, e), t) + (if e.Choose? then 1 else 0) <= Place(s, t)
  {
    hide Inv, InLine, Place;
    if e.Choose? {
      ChoiceAdvances(s, e.tm, t);
    } else {
      CallKeepsLine(s, e, t);
    }
  }

  // ----- whole runs -----

  /** How many times schedule() has picked a thread in events `from` to `to`. */
  function Choices(r: Run, from: nat, to: nat): nat
    requires from <= to <= |r.events|
  {
    if from == to then 0 else Choices(r, from, to - 1) + (if r.events[to - 1].Choose? then 1 else 0)
  }

  /**
   * From a state where `t` stands in line at place k, as long as it is not picked it stays
   * runnable and in line, and every choice made brings it one place forward.
   */
  lemma {:induction false} StaysInLine(r: Run, from: nat, to: nat, t: Tid)
    requires r.Valid() && from <= to <= |r.events|
    requires InLine(r.states[from], t)
    requires forall i | from <= i < to :: !Picks(r.states[i], r.events[i], t)
    ensures InLine(r.states[to], t)
    ensures Place(r.states[to], t) + Choices(r, from, to) <= Place(r.states[from], t)
  {
    hide Inv, InLine, Apply, Enabled, Place, Picks;
    if from < to {
      StaysInLine(r, from, to - 1, t);
      RunKeeps(r, to - 1);
      StepAdvances(r.states[to - 1], r.events[to - 1], t);
    }
  }

  /** So at most k other choices come before its own: after k + 1 choices it has been picked. */
  lemma BoundedBypass(r: Run, from: nat, to: nat, t: Tid)
    requires r.Valid() && from <= to <= |r.events|
    requires InLine(r.states[from], t)
    requires Choices(r, from, to) > Place(r.states[from], t)
    ensures exists i | from <= i < to :: Picks(r.states[i], r.events[i], t)
                                      && Choices(r, from, i) <= Place(r.states[from], t)
  {
    hide InLine, Apply, Enabled, Place, Picks;
    var i := from;
    while i < to && !Picks(r.states[i], r.events[i], t)
      invariant from <= i <= to
      invariant forall k | from <= k < i :: !Picks(r.states[k], r.events[k], t)
    {
      i := i + 1;
    }
    StaysInLine(r, from, i, t);
  }
}
