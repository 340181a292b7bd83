/**
 * What every step of the scheduler keeps: the lists and the threads agree, wait queues hold
 * exactly the threads whose waiter says so, and the join/exit handshake never loses a thread.
 */
module SchedInvariant {
  import opened Lists
  import opened SchedModel

  type Threads = map<Tid, Thread>

  /** Every allocated thread is on exactly one of the two lists, once; nothing freed is left. */
  ghost predicate Listed(threads: Threads, runList: seq<Tid>, exited: seq<Tid>, freed: set<Tid>) {
    && NoDup(runList) && NoDup(exited)
    && (forall t | t in runList :: t in threads && !threads[t].frame.Gone?)
    && (forall t | t in exited :: t in threads && threads[t].frame.Gone?)
    && (forall t | t in threads :: t in runList || t in exited)
    && freed !! threads.Keys
  }

  /** Who is running, and where everybody else is parked. */
  ghost predicate Placed(threads: Threads, current: Tid, inSched: bool) {
    && current in threads
    && (!inSched ==> threads[current].runnable && Running(threads[current].frame))
    && (forall t | t in threads && threads[t].frame.User? :: t == current && !inSched)
  }

  predicate Running(f: Frame) {
    f.User? || f.Waiting? || f.Joining? || f.ExitGate?
  }

  /** `onlist` agrees with queue membership; a waiter taken off its queue is runnable. */
  ghost predicate Queued(threads: Threads, queues: map<Queue, seq<Tid>>) {
    && (forall q :: NoDup(QueueOf(queues, q)))
    && (forall q, t | t in QueueOf(queues, q) :: t in threads && OnQueue(threads[t].frame, q))
    && (forall t | t in threads && threads[t].frame.Waiting? :: WellWaiting(queues, t, threads[t]))
  }

  predicate OnQueue(f: Frame, q: Queue) {
    f.Waiting? && f.q == q && f.onlist
  }

  predicate WellWaiting(queues: map<Queue, seq<Tid>>, t: Tid, th: Thread)
    requires th.frame.Waiting?
  {
    && (if th.frame.onlist then t in QueueOf(queues, th.frame.q) else th.runnable)
    && Matched(th.frame.q, th.frame.after)
  }

  /** Only mutex_enter() waits on a mutex, and it retries. */
  predicate Matched(q: Queue, after: After) {
    if q.OfMutex? then after == Retry(q.m) else !after.Retry?
  }

  /**
   * The handshake: `joined` is set exactly once the thread has reached exit_thread(); a gated
   * thread that is not runnable still waits for a joiner; join records and joiners agree, one
   * for each target; a joiner that sleeps has a live target that has not exited yet.
   */
  ghost predicate Handshake(threads: Threads, joinq: seq<JoinWaiter>) {
    && OneEach(joinq)
    && (forall w | w in joinq :: w.thread in threads && threads[w.thread].frame == Joining(w.wanted))
    && (forall a | a in threads && threads[a].frame.Joining? :: WellJoining(threads, joinq, a, threads[a]))
    && (forall j | j in threads :: WellGated(threads[j]))
  }

  ghost predicate OneEach(joinq: seq<JoinWaiter>) {
    forall i, j | 0 <= i < j < |joinq| :: joinq[i].wanted != joinq[j].wanted
  }

  predicate WellJoining(threads: Threads, joinq: seq<JoinWaiter>, a: Tid, th: Thread)
    requires th.frame.Joining?
  {
    var j := th.frame.target;
    JoinWaiter(a, j) in joinq && j in threads && threads[j].mustJoin && (th.runnable || !threads[j].joined)
  }

  predicate WellGated(th: Thread) {
    && (th.frame.ExitGate? ==> th.joined && (th.runnable || th.mustJoin))
    && (th.frame.Gone? ==> !th.mustJoin)
    && (th.joined ==> th.frame.ExitGate? || th.frame.Gone?)
    && (th.runnable ==> th.wakeup == NEVER)
  }

  ghost predicate Inv(s: State) {
    && Listed(s.threads, s.runList, s.exited, s.freed)
    && Placed(s.threads, s.current, s.inSched)
    && Queued(s.threads, s.queues)
    && Handshake(s.threads, s.joinq)
  }

  // ----- changing one thread -----

  lemma PutListed(threads: Threads, runList: seq<Tid>, exited: seq<Tid>, freed: set<Tid>, t: Tid, th: Thread)
    requires Listed(threads, runList, exited, freed)
    requires t in threads && th.frame.Gone? == threads[t].frame.Gone?
    ensures Listed(threads[t := th], runList, exited, freed)
  {
  }

  /** The thread's waiter does not change, or it has none before and after. */
  lemma PutQueued(threads: Threads, queues: map<Queue, seq<Tid>>, t: Tid, th: Thread)
    requires Queued(threads, queues) && t in threads
    requires if th.frame.Waiting? then th.frame == threads[t].frame && (th.runnable || th.frame.onlist)
             else !(threads[t].frame.Waiting? && threads[t].frame.onlist)
    ensures Queued(threads[t := th], queues)
  {
  }

  /** The thread's join record does not change, and its flags stay good enough for a joiner. */
  lemma PutHandshake(threads: Threads, joinq: seq<JoinWaiter>, t: Tid, th: Thread)
    requires Handshake(threads, joinq) && t in threads && WellGated(th)
    requires if th.frame.Joining? then th.frame == threads[t].frame && (th.runnable || !threads[t].runnable)
             else !threads[t].frame.Joining?
    requires th.joined == threads[t].joined && th.mustJoin == threads[t].mustJoin
    ensures Handshake(threads[t := th], joinq)
  {
  }

  // ----- the elementary moves -----

  lemma WakeKeeps(s: State, t: Tid)
    requires Inv(s) && t in s.threads
    ensures Inv(s.Wake(t))
  {
    var th := s.threads[t].Woken();
    PutListed(s.threads, s.runList, s.exited, s.freed, t, th);
    PutQueued(s.threads, s.queues, t, th);
    PutHandshake(s.threads, s.joinq, t, th);
  }

  lemma PopQueued(threads: Threads, queues: map<Queue, seq<Tid>>, q: Queue)
    requires Queued(threads, queues) && QueueOf(queues, q) != []
    ensures var l := QueueOf(queues, q);
            l[0] in threads && threads[l[0]].frame.Waiting?
            && Queued(threads[l[0] := threads[l[0]].Woken().(frame := threads[l[0]].frame.Popped())],
               queues[q := l[1..]])
  {
    var l := QueueOf(queues, q);
    var w := l[0];
    assert w in l;
    var queues' := queues[q := l[1..]];
    assert forall q' :: QueueOf(queues', q') == if q' == q then l[1..] else QueueOf(queues, q');
    assert forall x :: x in l <==> x == w || x in l[1..];
  }

  lemma WakeupOneKeeps(s: State, q: Queue)
    requires Inv(s)
    ensures Inv(s.WakeupOne(q))
    ensures Free(s) ==> Free(s.WakeupOne(q))
  {
    if s.Q(q) != [] {
      PopQueued(s.threads, s.queues, q);
      var w := s.Q(q)[0];
      var th := s.Thr(w).Woken().(frame := s.Thr(w).frame.Popped());
      PutListed(s.threads, s.runList, s.exited, s.freed, w, th);
      PutHandshake(s.threads, s.joinq, w, th);
    }
  }

  lemma {:induction false} WakeupAllKeeps(s: State, q: Queue)
    requires Inv(s)
    ensures Inv(s.WakeupAll(q))
    decreases |s.Q(q)|
  {
    if s.Q(q) != [] {
      WakeupOneKeeps(s, q);
      WakeupAllKeeps(s.WakeupOne(q), q);
    }
  }

  lemma PushQueued(threads: Threads, queues: map<Queue, seq<Tid>>, t: Tid, th: Thread)
    requires Queued(threads, queues) && t in threads && !threads[t].frame.Waiting?
    requires th.frame.Waiting? && th.frame.onlist && Matched(th.frame.q, th.frame.after)
    ensures Queued(threads[t := th], queues[th.frame.q := QueueOf(queues, th.frame.q) + [t]])
  {
    var q := th.frame.q;
    var l := QueueOf(queues, q);
    var queues' := queues[q := l + [t]];
    assert t !in l;
    assert forall q' :: QueueOf(queues', q') == if q' == q then l + [t] else QueueOf(queues, q');
  }

  lemma WaitOnKeeps(s: State, q: Queue, deadline: int, after: After)
    requires Inv(s) && Free(s) && Matched(q, after)
    ensures Inv(s.WaitOn(q, deadline, after))
  {
    var th := s.Cur().(runnable := false, wakeup := deadline, frame := Waiting(q, true, after));
    PutListed(s.threads, s.runList, s.exited, s.freed, s.current, th);
    PushQueued(s.threads, s.queues, s.current, th);
    PutHandshake(s.threads, s.joinq, s.current, th);
  }

  lemma UnlinkQueued(threads: Threads, queues: map<Queue, seq<Tid>>, t: Tid, th: Thread)
    requires Queued(threads, queues) && t in threads && threads[t].frame.Waiting? && threads[t].frame.onlist
    requires !th.frame.Waiting?
    ensures var q := threads[t].frame.q;
            Queued(threads[t := th], queues[q := Remove(QueueOf(queues, q), t)])
  {
    var q := threads[t].frame.q;
    var l := QueueOf(queues, q);
    RemoveNoDup(l, t);
    var queues' := queues[q := Remove(l, t)];
    assert forall q' :: QueueOf(queues', q') == if q' == q then Remove(l, t) else QueueOf(queues, q');
  }

  lemma FinishWaitKeeps(s: State)
    requires Inv(s) && !s.inSched && s.Cur().frame.Waiting?
    ensures Inv(s.FinishWait()) && Free(s.FinishWait())
  {
    var th := s.Cur().(frame := User);
    PutListed(s.threads, s.runList, s.exited, s.freed, s.current, th);
    if s.Cur().frame.onlist {
      UnlinkQueued(s.threads, s.queues, s.current, th);
    } else {
      PutQueued(s.threads, s.queues, s.current, th);
    }
    PutHandshake(s.threads, s.joinq, s.current, th);
  }

  /** The running thread parks itself in schedule(), possibly asleep. */
  lemma ParkKeeps(s: State, th: Thread)
    requires Inv(s) && Free(s)
    requires th == s.Cur().(runnable := th.runnable, wakeup := th.wakeup) && (th.runnable ==> th.wakeup == NEVER)
    ensures Inv(s.Suspend(th, Parked))
  {
    var th' := th.(frame := Parked);
    PutListed(s.threads, s.runList, s.exited, s.freed, s.current, th');
    PutQueued(s.threads, s.queues, s.current, th');
    PutHandshake(s.threads, s.joinq, s.current, th');
  }

  lemma NewListed(threads: Threads, runList: seq<Tid>, exited: seq<Tid>, freed: set<Tid>, t: Tid, th: Thread)
    requires Listed(threads, runList, exited, freed)
    requires t !in threads && t !in freed && !th.frame.Gone?
    ensures Listed(threads[t := th], runList + [t], exited, freed)
  {
    assert t !in runList;
  }

  lemma NewQueued(threads: Threads, queues: map<Queue, seq<Tid>>, t: Tid, th: Thread)
    requires Queued(threads, queues) && t !in threads && !th.frame.Waiting?
    ensures Queued(threads[t := th], queues)
  {
  }

  lemma NewHandshake(threads: Threads, joinq: seq<JoinWaiter>, t: Tid, th: Thread)
    requires Handshake(threads, joinq) && t !in threads && !th.frame.Joining? && WellGated(th)
    ensures Handshake(threads[t := th], joinq)
  {
  }

  lemma CreateKeeps(s: State, t: Tid, joinable: bool)
    requires Inv(s) && Enabled(s, Create(t, joinable))
    ensures Inv(s.Create(t, joinable))
  {
    var th := Thread(true, joinable, false, false, NEVER, 0, Fresh);
    NewListed(s.threads, s.runList, s.exited, s.freed, t, th);
    NewQueued(s.threads, s.queues, t, th);
    NewHandshake(s.threads, s.joinq, t, th);
  }

  // ----- joining and exiting -----

  lemma JoinKeeps(s: State, j: Tid)
    requires Inv(s) && Enabled(s, Join(j))
    ensures Inv(s.Join(j))
  {
    if s.Thr(j).joined {
      ReleaseKeeps(s, j);
    } else {
      var th := s.Cur().Blocked().(frame := Joining(j));
      PutListed(s.threads, s.runList, s.exited, s.freed, s.current, th);
      PutQueued(s.threads, s.queues, s.current, th);
      RecordHandshake(s.threads, s.joinq, s.current, j, th);
    }
  }

  /** The joiner lets a gated thread go. */
  lemma ReleaseKeeps(s: State, j: Tid)
    requires Inv(s) && Enabled(s, Join(j)) && s.Thr(j).joined
    ensures Inv(s.Put(j, s.Thr(j).(mustJoin := false).Woken()))
  {
    var th := s.Thr(j).(mustJoin := false).Woken();
    PutListed(s.threads, s.runList, s.exited, s.freed, j, th);
    PutQueued(s.threads, s.queues, j, th);
  }

  lemma RecordHandshake(threads: Threads, joinq: seq<JoinWaiter>, t: Tid, j: Tid, th: Thread)
    requires Handshake(threads, joinq) && t in threads && !threads[t].frame.Joining?
    requires j in threads && threads[j].mustJoin && !threads[j].joined
    requires forall a | a in threads :: threads[a].frame != Joining(j)
    requires th.frame == Joining(j) && th.joined == threads[t].joined && th.mustJoin == threads[t].mustJoin
    requires !th.joined && !th.runnable
    ensures Handshake(threads[t := th], joinq + [JoinWaiter(t, j)])
  {
    assert forall w | w in joinq :: w.wanted != j;
  }

  lemma UnjoinKeeps(s: State)
    requires Inv(s) && !s.inSched && s.Cur().frame.Joining?
    ensures Inv(s.Unjoin()) && Enabled(s.Unjoin(), Join(s.Cur().frame.target))
  {
    var th := s.Cur().(frame := User);
    PutListed(s.threads, s.runList, s.exited, s.freed, s.current, th);
    PutQueued(s.threads, s.queues, s.current, th);
    ForgetHandshake(s.threads, s.joinq, s.current, th);
  }

  lemma RemoveOneEach(joinq: seq<JoinWaiter>, w: JoinWaiter)
    requires OneEach(joinq) && w in joinq
    ensures OneEach(Remove(joinq, w))
    ensures forall x | x in Remove(joinq, w) :: x in joinq && x.wanted != w.wanted
    ensures forall x | x in joinq && x.wanted == w.wanted :: x == w
  {
    RemoveCuts(joinq, w);
  }

  lemma ForgetHandshake(threads: Threads, joinq: seq<JoinWaiter>, t: Tid, th: Thread)
    requires Handshake(threads, joinq) && t in threads && threads[t].frame.Joining?
    requires th == threads[t].(frame := User)
    ensures Handshake(threads[t := th], Remove(joinq, JoinWaiter(t, threads[t].frame.target)))
    ensures forall a | a in threads && a != t :: threads[a].frame != threads[t].frame
  {
    RemoveOneEach(joinq, JoinWaiter(t, threads[t].frame.target));
    forall a | a in threads && a != t && threads[a].frame.Joining?
      ensures threads[a].frame != threads[t].frame
    {
      assert WellJoining(threads, joinq, a, threads[a]);
    }
  }

  lemma ExitKeeps(s: State)
    requires Inv(s) && !s.inSched && (s.Cur().frame.User? || s.Cur().frame.ExitGate?)
    ensures Inv(s.Exit())
  {
    if s.Cur().mustJoin {
      GateKeeps(s);
    } else {
      var th := s.Cur().(runnable := false, frame := Gone);
      RetireListed(s.threads, s.runList, s.exited, s.freed, s.current, th);
      PutQueued(s.threads, s.queues, s.current, th);
      GoneHandshake(s.threads, s.joinq, s.current, th);
    }
  }

  lemma RetireListed(threads: Threads, runList: seq<Tid>, exited: seq<Tid>, freed: set<Tid>, t: Tid, th: Thread)
    requires Listed(threads, runList, exited, freed)
    requires t in threads && !threads[t].frame.Gone? && th.frame.Gone?
    ensures Listed(threads[t := th], Remove(runList, t), [t] + exited, freed)
  {
    RemoveNoDup(runList, t);
    assert forall x :: x in [t] + exited <==> x == t || x in exited;
  }

  lemma GoneHandshake(threads: Threads, joinq: seq<JoinWaiter>, t: Tid, th: Thread)
    requires Handshake(threads, joinq) && t in threads && !threads[t].mustJoin && !threads[t].frame.Joining?
    requires th == threads[t].(runnable := false, frame := Gone)
    ensures Handshake(threads[t := th], joinq)
  {
  }

  /** Setting `joined` wakes the one joiner, so nobody sleeps on a thread that has arrived. */
  lemma GateKeeps(s: State)
    requires Inv(s) && !s.inSched && (s.Cur().frame.User? || s.Cur().frame.ExitGate?) && s.Cur().mustJoin
    ensures Inv(s.Gate())
  {
    hide State.WakeJoiner, State.Gate;
    var s1 := s.WakeJoiner(s.current);
    WakeJoinerKeeps(s);
    var th := s1.Cur().(joined := true).Blocked().(frame := ExitGate);
    assert s.Gate() == s1.Put(s.current, th).(inSched := true) by { GateOrder(s); }
    PutListed(s1.threads, s.runList, s.exited, s.freed, s.current, th);
    PutQueued(s1.threads, s.queues, s.current, th);
    ArriveHandshake(s1.threads, s.joinq, s.current, th);
  }

  lemma WakeJoinerKeeps(s: State)
    requires Inv(s) && !s.inSched && s.current in s.threads
    ensures Inv(s.WakeJoiner(s.current))
    ensures s.Cur().frame == s.WakeJoiner(s.current).Cur().frame
      && s.Cur().mustJoin == s.WakeJoiner(s.current).Cur().mustJoin
    ensures s.WakeJoiner(s.current) == s.(threads := s.WakeJoiner(s.current).threads)
    ensures forall a | a in s.threads && s.threads[a].frame == Joining(s.current) ::
      s.WakeJoiner(s.current).Thr(a).runnable
  {
    var k := s.JoinerOf(s.current);
    if k < |s.joinq| {
      assert s.joinq[k] in s.joinq;
      WakeKeeps(s, s.joinq[k].thread);
    }
    forall a | a in s.threads && s.threads[a].frame == Joining(s.current)
      ensures s.WakeJoiner(s.current).Thr(a).runnable
    {
      assert WellJoining(s.threads, s.joinq, a, s.threads[a]);
      var i :| 0 <= i < |s.joinq| && s.joinq[i] == JoinWaiter(a, s.current);
      assert k == i;
    }
  }

  /** Marking the thread first or waking the joiner first comes to the same. */
  lemma GateOrder(s: State)
    requires Inv(s) && !s.inSched && !s.Cur().frame.Joining?
    ensures var s1 := s.WakeJoiner(s.current);
            s.Gate() == s1.Put(s.current, s1.Cur().(joined := true).Blocked().(frame := ExitGate)).(inSched := true)
  {
    hide Inv;
    var k := s.JoinerOf(s.current);
    if k < |s.joinq| {
      var w := s.joinq[k].thread;
      JoinerIsOther(s, k);
      Overwrite(s.threads, s.current, s.Cur().(joined := true), w, s.Thr(w).Woken(),
          s.Cur().(joined := true).Blocked().(frame := ExitGate));
    }
  }

  lemma JoinerIsOther(s: State, k: nat)
    requires Inv(s) && !s.Cur().frame.Joining? && k < |s.joinq|
    ensures s.joinq[k].thread != s.current
  {
    assert s.joinq[k] in s.joinq;
  }

  lemma Overwrite(threads: Threads, t: Tid, x: Thread, w: Tid, y: Thread, z: Thread)
    requires w != t
    ensures threads[t := x][w := y][t := z] == threads[w := y][t := z]
  {
  }

  lemma ArriveHandshake(threads: Threads, joinq: seq<JoinWaiter>, t: Tid, th: Thread)
    requires Handshake(threads, joinq) && t in threads && threads[t].mustJoin && !threads[t].frame.Joining?
    requires forall a | a in threads && threads[a].frame == Joining(t) :: threads[a].runnable
    requires th == threads[t].(joined := true).Blocked().(frame := ExitGate)
    ensures Handshake(threads[t := th], joinq)
  {
  }

  // ----- schedule() -----

  lemma ChooseKeeps(s: State, tm: int)
    requires Inv(s) && s.inSched && s.HasReady(tm)
    ensures Inv(s.Choose(tm))
  {
    var next := s.Next(tm);
    var th := s.Dispatched(s.Thr(next));
    var threads := s.threads[next := th];
    var runList := Remove(s.runList, next) + [next];
    RotateListed(s.threads, s.runList, s.exited, s.freed, next);
    PutListed(s.threads, runList, s.exited, s.freed, next, th);
    PutQueued(s.threads, s.queues, next, th);
    PutHandshake(s.threads, s.joinq, next, th);
    ReapKeeps(s.Put(next, th).(runList := runList, current := next, inSched := false));
  }

  lemma RotateListed(threads: Threads, runList: seq<Tid>, exited: seq<Tid>, freed: set<Tid>, t: Tid)
    requires Listed(threads, runList, exited, freed) && t in runList
    ensures Listed(threads, Remove(runList, t) + [t], exited, freed)
  {
    RemoveNoDup(runList, t);
  }

  /** Everything on the exited list goes, and nothing that is still referenced goes with it. */
  lemma ReapKeeps(s: State)
    requires Inv(s) && !s.inSched
    ensures Inv(s.Reap(s.current))
    ensures s.Reap(s.current).exited == []
  {
    assert s.current !in s.exited;
    ReapQueued(s.threads, s.queues, set t | t in s.exited && t != s.current);
    ReapHandshake(s.threads, s.joinq, set t | t in s.exited && t != s.current);
  }

  lemma ReapQueued(threads: Threads, queues: map<Queue, seq<Tid>>, gone: set<Tid>)
    requires Queued(threads, queues)
    requires forall t | t in gone :: t in threads && threads[t].frame.Gone?
    ensures Queued(threads - gone, queues)
  {
  }

  lemma ReapHandshake(threads: Threads, joinq: seq<JoinWaiter>, gone: set<Tid>)
    requires Handshake(threads, joinq)
    requires forall t | t in gone :: t in threads && threads[t].frame.Gone?
    ensures Handshake(threads - gone, joinq)
  {
  }

  // ----- every step -----

  lemma ResumeKeeps(s: State)
    requires Inv(s) && Enabled(s, Resume)
    ensures Inv(s.Resume())
  {
    match s.Cur().frame {
      case Waiting(_, _, after) =>
        FinishWaitKeeps(s);
        if after.Retry? && !s.FinishWait().CanEnter(after.m) {
          WaitOnKeeps(s.FinishWait(), OfMutex(after.m), NEVER, after);
        }
      case Joining(j) =>
        UnjoinKeeps(s);
        JoinKeeps(s.Unjoin(), j);
      case ExitGate =>
        ExitKeeps(s);
      case _ =>
    }
  }

  lemma LeaveKeeps(s: State, m: nat)
    requires Inv(s) && Free(s) && s.Mtx(m).v > 0
    ensures Inv(s.Leave(m)) && Free(s.Leave(m))
  {
    if s.Mtx(m).v == 1 {
      WakeupOneKeeps(s.(mutexes := s.mutexes[m := Mutex(0, 0)]), OfMutex(m));
    }
  }

  lemma SetLwpKeeps(s: State, l: Lwp)
    requires Inv(s) && Free(s)
    ensures Inv(s.Put(s.current, s.Cur().(lwp := l)))
  {
    var th := s.Cur().(lwp := l);
    PutListed(s.threads, s.runList, s.exited, s.freed, s.current, th);
    PutQueued(s.threads, s.queues, s.current, th);
    PutHandshake(s.threads, s.joinq, s.current, th);
  }

  lemma YieldKeeps(s: State)
    requires Inv(s) && Free(s)
    ensures Inv(s.Suspend(s.Cur(), Parked))
  {
    ParkKeeps(s, s.Cur());
  }

  lemma TryEnterKeeps(s: State, m: nat)
    requires Inv(s)
    ensures Inv(s.TryEnter(m))
  {
  }

  lemma StepKeeps(s: State, e: Event)
    requires Inv(s) && Enabled(s, e)
    ensures Inv(Apply(s, e))
  {
    hide Inv, State.Create, State.WakeupOne, State.WakeupAll, State.TryEnter, State.Leave, State.WaitOn, State.Suspend,
      State.Join, State.Exit, State.Choose, State.Resume, State.Wake;
    match e {
      case Create(t, joinable) => CreateKeeps(s, t, joinable);
      case SetLwp(l) => SetLwpKeeps(s, l);
      case Wake(t) => WakeKeeps(s, t);
      case Signal(c) => WakeupOneKeeps(s, OfCv(c));
      case Broadcast(c) => WakeupAllKeeps(s, OfCv(c));
      case TryEnter(m) => TryEnterKeeps(s, m);
      case Enter(m) =>
        TryEnterKeeps(s, m);
        if !s.CanEnter(m) {
          WaitOnKeeps(s, OfMutex(m), NEVER, Retry(m));
        }
      case Leave(m) => LeaveKeeps(s, m);
      case Wait(c, d) => WaitOnKeeps(s, OfCv(c), d, Return);
      case CvWait(c, m, d) =>
        LeaveKeeps(s, m);
        WaitOnKeeps(s.Leave(m), OfCv(c), d, Reacquire(m));
      case Yield => YieldKeeps(s);
      case Sleep(d) => ParkKeeps(s, s.Cur().(runnable := false, wakeup := d));
      case Join(j) => JoinKeeps(s, j);
      case Exit => ExitKeeps(s);
      case Choose(tm) => ChooseKeeps(s, tm);
      case Resume => ResumeKeeps(s);
    }
  }

  /** Every state of every run satisfies the invariant. */
  lemma {:induction false} RunKeeps(r: Run, n: nat)
    requires r.Valid() && n < |r.states|
    ensures Inv(r.states[n])
  {
    if n > 0 {
      RunKeeps(r, n - 1);
      StepKeeps(r.states[n - 1], r.events[n - 1]);
    }
  }
}
