/**
 * The cooperative scheduler of franken/thread/thread.c as a transition system.
 *
 * Only schedule() switches threads, so a step is exactly what one thread does between
 * entering the library and reaching schedule(), or what schedule() does once a thread is
 * found. A thread that is not running is parked inside some library call; `Frame` says which.
 */
module SchedModel {
  import opened Lists

  /** A `struct thread *`. Identifiers of freed threads are not used again. */
  type Tid = nat
  /** A `struct lwp *`; 0 is the null pointer. */
  type Lwp = nat

  /** A wakeup_time that never expires. */
  const NEVER: int := -1
  /** The longest idle sleep, one millisecond. */
  const MAX_IDLE: int := 1_000_000

  /** A `struct waithead`: the one inside a mutex, or one of a condition variable. */
  datatype Queue = OfMutex(m: nat) | OfCv(c: nat)

  /** What the caller of wait() does when it returns. */
  datatype After = Return | Retry(m: nat) | Reacquire(m: nat)

  datatype Frame =
    | Fresh                                             // created, never run
    | User                                              // running outside the library
    | Parked                                            // in schedule(), returns to the application
    | Waiting(q: Queue, onlist: bool, after: After)     // in wait(), with its `struct waiter`
    | Joining(target: Tid)                              // in join_thread()
    | ExitGate                                          // in exit_thread(), waiting to be joined
    | Gone                                              // on the exited list
  {
    function Popped(): Frame {
      if Waiting? then Waiting(q, false, after) else this
    }
  }

  datatype Thread = Thread(runnable: bool, mustJoin: bool, joined: bool, timedOut: bool,
                           wakeup: int, lwp: Lwp, frame: Frame)
  {
    predicate ReadyAt(tm: int) {
      runnable || 0 <= wakeup <= tm
    }

    function Woken(): Thread {
      this.(wakeup := NEVER, runnable := true)
    }

    function Blocked(): Thread {
      this.(wakeup := NEVER, runnable := false)
    }
  }

  datatype Mutex = Mutex(v: nat, o: Lwp)

  datatype JoinWaiter = JoinWaiter(thread: Tid, wanted: Tid)

  const NoThread := Thread(false, false, false, false, NEVER, 0, Gone)

  datatype State = State(
    threads: map<Tid, Thread>,          // allocated and not yet freed
    runList: seq<Tid>,                  // thread_list
    exited: seq<Tid>,                   // exited_threads
    freed: set<Tid>,
    current: Tid,
    inSched: bool,                      // the processor is inside schedule()
    joinq: seq<JoinWaiter>,             // joinwq
    queues: map<Queue, seq<Tid>>,
    mutexes: map<nat, Mutex>)
  {
    function Thr(t: Tid): Thread {
      if t in threads then threads[t] else NoThread
    }

    function Cur(): Thread {
      Thr(current)
    }

    function Q(q: Queue): seq<Tid> {
      QueueOf(queues, q)
    }

    function Mtx(m: nat): Mutex {
      if m in mutexes then mutexes[m] else Mutex(0, 0)
    }

    function Put(t: Tid, th: Thread): State {
      this.(threads := threads[t := th])
    }

    function PutQ(q: Queue, l: seq<Tid>): State {
      this.(queues := queues[q := l])
    }

    function Wake(t: Tid): State {
      Put(t, Thr(t).Woken())
    }

    /** The processor enters schedule() with the current thread parked in `f`. */
    function Suspend(th: Thread, f: Frame): State {
      Put(current, th.(frame := f)).(inSched := true)
    }

    /** The current thread is back in application code. */
    function Back(): State {
      Put(current, Cur().(frame := User))
    }

    // ----- wait queues -----

    function WaitOn(q: Queue, deadline: int, after: After): State {
      PutQ(q, Q(q) + [current]).Suspend(Cur().(runnable := false, wakeup := deadline), Waiting(q, true, after))
    }

    function WakeupOne(q: Queue): State {
      if Q(q) == [] then this
      else
        var w := Q(q)[0];
        PutQ(q, Q(q)[1..]).Put(w, Thr(w).Woken().(frame := Thr(w).frame.Popped()))
    }

    function WakeupAll(q: Queue): State
      decreases |Q(q)|
    {
      if Q(q) == [] then this else WakeupOne(q).WakeupAll(q)
    }

    /** The tail of wait(): a waiter still on the list was not woken through it. */
    function FinishWait(): State
      requires Cur().frame.Waiting?
    {
      var Waiting(q, onlist, _) := Cur().frame;
      (if onlist then PutQ(q, Remove(Q(q), current)) else this).Back()
    }

    // ----- mutexes -----

    predicate CanEnter(m: nat) {
      Mtx(m).v == 0 || Mtx(m).o == Cur().lwp
    }

    function TryEnter(m: nat): State {
      if CanEnter(m) then this.(mutexes := mutexes[m := Mutex(Mtx(m).v + 1, Cur().lwp)]) else this
    }

    function Enter(m: nat): State {
      if CanEnter(m) then TryEnter(m) else WaitOn(OfMutex(m), NEVER, Retry(m))
    }

    function Leave(m: nat): State
      requires Mtx(m).v > 0
    {
      if Mtx(m).v == 1 then this.(mutexes := mutexes[m := Mutex(0, 0)]).WakeupOne(OfMutex(m))
      else this.(mutexes := mutexes[m := Mutex(Mtx(m).v - 1, Mtx(m).o)])
    }

    // ----- threads -----

    function Create(t: Tid, joinable: bool): State {
      Put(t, Thread(true, joinable, false, false, NEVER, 0, Fresh)).(runList := runList + [t])
    }

    function Join(j: Tid): State {
      if Thr(j).joined then Put(j, Thr(j).(mustJoin := false).Woken())
      else this.(joinq := joinq + [JoinWaiter(current, j)]).Suspend(Cur().Blocked(), Joining(j))
    }

    function Unjoin(): State
      requires Cur().frame.Joining?
    {
      this.(joinq := Remove(joinq, JoinWaiter(current, Cur().frame.target))).Back()
    }

    /** The joiner recorded first for thread `t`; the length of the list when there is none. */
    function JoinerOf(t: Tid): (k: nat)
      ensures k <= |joinq|
      ensures k < |joinq| ==> joinq[k].wanted == t
      ensures forall i | 0 <= i < k :: joinq[i].wanted != t
    {
      FindWanted(joinq, t)
    }

    function WakeJoiner(t: Tid): State {
      if JoinerOf(t) < |joinq| then Wake(joinq[JoinerOf(t)].thread) else this
    }

    /** One turn of the loop in exit_thread() for a thread that must be joined. */
    function Gate(): State {
      var s := Put(current, Cur().(joined := true)).WakeJoiner(current);
      s.Suspend(s.Cur().Blocked(), ExitGate)
    }

    function LeaveForGood(): State {
      this.(runList := Remove(runList, current), exited := [current] + exited)
          .Suspend(Cur().(runnable := false), Gone)
    }

    function Exit(): State {
      if Cur().mustJoin then Gate() else LeaveForGood()
    }

    // ----- schedule() -----

    /** Index of the first thread that is runnable or whose time has come. */
    function FirstReady(tm: int): (k: nat)
      ensures k <= |runList|
      ensures k < |runList| ==> Thr(runList[k]).ReadyAt(tm)
      ensures forall i | 0 <= i < k :: !Thr(runList[i]).ReadyAt(tm)
    {
      FirstReadyIn(threads, runList, tm)
    }

    predicate HasReady(tm: int) {
      FirstReady(tm) < |runList|
    }

    function Next(tm: int): Tid
      requires HasReady(tm)
    {
      runList[FirstReady(tm)]
    }

    /**
     * Frees the exited threads, except the one recorded as `prev`. The loop runs on the
     * stack of the thread switched to, whose own `prev` is that thread itself.
     */
    function Reap(prev: Tid): State {
      var gone := Others(exited, prev);
      this.(exited := Only(exited, prev), threads := threads - gone, freed := freed + gone)
    }

    function Dispatched(th: Thread): Thread {
      (if th.runnable then th else th.(timedOut := true).Woken())
        .(frame := if th.frame.Fresh? || th.frame.Parked? then User else th.frame)
    }

    /** schedule() finding a thread at clock reading `tm`, switching to it and reaping. */
    function Choose(tm: int): State
      requires HasReady(tm)
    {
      var next := Next(tm);
      var s := Put(next, Dispatched(Thr(next)))
               .(runList := Remove(runList, next) + [next], current := next, inSched := false);
      if Thr(next).frame.Fresh? then s else s.Reap(next)
    }

    /** The thread just switched to carries on inside the call it was parked in. */
    function Resume(): State {
      match Cur().frame
      case Waiting(_, _, Return) => FinishWait()
      case Waiting(_, _, Retry(m)) => FinishWait().Enter(m)
      case Waiting(_, _, Reacquire(m)) => FinishWait().TryEnter(m)
      case Joining(j) => Unjoin().Join(j)
      case ExitGate => Exit()
      case _ => this
    }
  }

  function QueueOf(queues: map<Queue, seq<Tid>>, q: Queue): seq<Tid> {
    if q in queues then queues[q] else []
  }

  function FindWanted(l: seq<JoinWaiter>, t: Tid): (k: nat)
    ensures k <= |l|
    ensures k < |l| ==> l[k].wanted == t
    ensures forall i | 0 <= i < k :: l[i].wanted != t
  {
    if l == [] || l[0].wanted == t then 0 else FindWanted(l[1..], t) + 1
  }

  function FirstReadyIn(threads: map<Tid, Thread>, l: seq<Tid>, tm: int): (k: nat)
    ensures k <= |l|
    ensures k < |l| ==> (if l[k] in threads then threads[l[k]] else NoThread).ReadyAt(tm)
    ensures forall i | 0 <= i < k :: !(if l[i] in threads then threads[l[i]] else NoThread).ReadyAt(tm)
  {
    if l == [] || (if l[0] in threads then threads[l[0]] else NoThread).ReadyAt(tm) then 0
    else FirstReadyIn(threads, l[1..], tm) + 1
  }

  /** What the loop over the zombies frees. */
  function Others(l: seq<Tid>, prev: Tid): set<Tid> {
    set t | t in l && t != prev
  }

  /** What remains of `l` after removing everything but `t`. */
  function Only(l: seq<Tid>, t: Tid): (r: seq<Tid>)
    ensures forall x | x in r :: x == t
    ensures t !in l ==> r == []
  {
    if l == [] then []
    else if l[0] == t then [t] + Only(l[1..], t)
    else Only(l[1..], t)
  }

  /** What can happen: calls of the running thread, external wakes, and the scheduler itself. */
  datatype Event =
    | Create(t: Tid, joinable: bool)
    | SetLwp(l: Lwp)
    | Wake(t: Tid)                                // also the poll code, at any time
    | Signal(c: nat)
    | Broadcast(c: nat)
    | TryEnter(m: nat)
    | Enter(m: nat)
    | Leave(m: nat)
    | Wait(c: nat, deadline: int)
    | CvWait(c: nat, m: nat, deadline: int)
    | Yield
    | Sleep(deadline: int)
    | Join(j: Tid)
    | Exit
    | Choose(tm: int)
    | Resume

  /** The running thread is in application code and may call the library. */
  predicate Free(s: State) {
    !s.inSched && s.Cur().frame.User?
  }

  /**
   * What the library demands of its callers: the asserts in the code, live arguments, a
   * joinable thread joined by one thread only, and no abort() in mutex_enter_nowrap().
   */
  predicate Enabled(s: State, e: Event) {
    match e
    case Create(t, _) => Free(s) && t !in s.threads && t !in s.freed
    case Wake(t) => t in s.threads
    case Leave(m) => Free(s) && s.Mtx(m).v > 0
    case CvWait(_, m, _) => Free(s) && s.Mtx(m).v > 0
    case Join(j) => Free(s) && s.Thr(j).mustJoin
                    && forall t | t in s.threads :: s.threads[t].frame != Joining(j)
    case Choose(tm) => s.inSched && s.HasReady(tm)
    case Resume =>
      && !s.inSched && !s.Cur().frame.User?
      && (s.Cur().frame.Waiting? && s.Cur().frame.after.Reacquire? ==> s.CanEnter(s.Cur().frame.after.m))
    case _ => Free(s)
  }

  function Apply(s: State, e: Event): State
    requires Enabled(s, e)
  {
    match e
    case Create(t, joinable) => s.Create(t, joinable)
    case SetLwp(l) => s.Put(s.current, s.Cur().(lwp := l))
    case Wake(t) => s.Wake(t)
    case Signal(c) => s.WakeupOne(OfCv(c))
    case Broadcast(c) => s.WakeupAll(OfCv(c))
    case TryEnter(m) => s.TryEnter(m)
    case Enter(m) => s.Enter(m)
    case Leave(m) => s.Leave(m)
    case Wait(c, d) => s.WaitOn(OfCv(c), d, Return)
    case CvWait(c, m, d) => s.Leave(m).WaitOn(OfCv(c), d, Reacquire(m))
    case Yield => s.Suspend(s.Cur(), Parked)
    case Sleep(d) => s.Suspend(s.Cur().(runnable := false, wakeup := d), Parked)
    case Join(j) => s.Join(j)
    case Exit => s.Exit()
    case Choose(tm) => s.Choose(tm)
    case Resume => s.Resume()
  }

  /** init_sched(): one thread, running. */
  const Init := State(map[0 := Thread(true, false, false, false, NEVER, 0, User)],
                      [0], [], {}, 0, false, [], map[], map[])

  /** A run: states joined by events, from the initial state. */
  datatype Run = Run(states: seq<State>, events: seq<Event>) {
    ghost predicate Valid() {
      && |states| == |events| + 1
      && states[0] == Init
      && forall i | 0 <= i < |events| :: Enabled(states[i], events[i]) && states[i + 1] == Apply(states[i], events[i])
    }
  }
}
