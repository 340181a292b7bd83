/**
 * The worker pool of librumpuser/sysproxy.c, schedulework() and serv_workbouncer(): counters and a
 * work list under one mutex, with workers that are created, sleep, are woken and retire.
 */
module WorkerPool {
  import opened Lists

  type Job = nat

  /** The two tunables, rumpsp_maxworker and rumpsp_idleworker. */
  datatype Limits = Limits(maxWorker: nat, idleWorker: nat)

  /** What is protected by sbamtx. */
  datatype Shared = Shared(wrklist: seq<Job>, nwork: int, nworker: int, idleworker: int)

  /** What schedulework() does about getting the new work done. */
  datatype Call = Signal | CreateWorker | Nothing

  /** What a worker does with the mutex held, before it lets go of it. */
  datatype Decision = Retire | Sleep | Take(job: Job)

  function Enqueued(s: Shared, job: Job): Shared {
    s.(wrklist := s.wrklist + [job], nwork := s.nwork + 1)
  }

  /** Asked with the work already counted. */
  function WhatToCall(s: Shared, lim: Limits): Call {
    if s.nwork <= s.idleworker then Signal
    else if s.nworker < lim.maxWorker then CreateWorker
    else Nothing
  }

  /** The top of the worker's loop. */
  function AtTop(s: Shared, lim: Limits): (r: (Shared, Decision)) {
    if s.idleworker - s.nwork >= lim.idleWorker then (s.(nworker := s.nworker - 1), Retire)
    else WhileIdle(s.(idleworker := s.idleworker + 1))
  }

  /** The wait loop, each time the worker has the mutex. */
  function WhileIdle(s: Shared): (r: (Shared, Decision)) {
    if s.wrklist == [] then (s, Sleep)
    else (s.(idleworker := s.idleworker - 1, wrklist := s.wrklist[1..], nwork := s.nwork - 1), Take(s.wrklist[0]))
  }

  // ----- all interleavings -----

  datatype Worker = AtLoopTop | Sleeping | Woken | Busy(job: Job)

  /** `given` and `taken` record all work ever scheduled and picked up; `refused` a failed creation. */
  datatype State = State(lim: Limits, sh: Shared, workers: map<nat, Worker>, given: seq<Job>, taken: seq<Job>,
      refused: bool)

  datatype Event =
    | Schedule(job: Job, wakee: nat, created: bool, newcomer: nat)
    | Turn(w: nat)          // a worker at the top of its loop gets the mutex
    | Wakeup(w: nat)        // a woken worker gets the mutex
    | Spurious(w: nat)
    | Done(w: nat)          // a job is finished

  ghost predicate Enabled(s: State, e: Event) {
    match e
    case Schedule(job, wakee, created, newcomer) =>
      // the signal wakes a sleeper if there is one; a new thread is a new thread
      && ((exists w :: w in s.workers && s.workers[w] == Sleeping) ==>
            wakee in s.workers && s.workers[wakee] == Sleeping)
      && newcomer !in s.workers
    case Turn(w) => w in s.workers && s.workers[w] == AtLoopTop
    case Wakeup(w) => w in s.workers && s.workers[w] == Woken
    case Spurious(w) => w in s.workers && s.workers[w] == Sleeping
    case Done(w) => w in s.workers && s.workers[w].Busy?
  }

  function Decide(s: State, w: nat, sh: Shared, d: Decision): State {
    match d
    case Retire => s.(sh := sh, workers := s.workers - {w})
    case Sleep => s.(sh := sh, workers := s.workers[w := Sleeping])
    case Take(job) => s.(sh := sh, workers := s.workers[w := Busy(job)], taken := s.taken + [job])
  }

  ghost function Apply(s: State, e: Event): State
    requires Enabled(s, e)
  {
    match e
    case Schedule(job, wakee, created, newcomer) =>
      var sh := Enqueued(s.sh, job);
      var s1 := s.(given := s.given + [job]);
      (match WhatToCall(sh, s.lim)
       case Signal =>
         var asleep := wakee in s.workers && s.workers[wakee] == Sleeping;
         s1.(sh := sh, workers := if asleep then s.workers[wakee := Woken] else s.workers)
       case CreateWorker =>
         if created then s1.(sh := sh.(nworker := sh.nworker + 1), workers := s.workers[newcomer := AtLoopTop])
         else s1.(sh := sh, refused := true)
       case Nothing => s1.(sh := sh))
    case Turn(w) => var (sh, d) := AtTop(s.sh, s.lim); Decide(s, w, sh, d)
    case Wakeup(w) => var (sh, d) := WhileIdle(s.sh); Decide(s, w, sh, d)
    case Spurious(w) => s.(workers := s.workers[w := Woken])
    case Done(w) => s.(workers := s.workers[w := AtLoopTop])
  }

  ghost function IdleSet(ws: map<nat, Worker>): set<nat> {
    set w | w in ws && (ws[w] == Sleeping || ws[w] == Woken)
  }

  ghost function WokenSet(ws: map<nat, Worker>): set<nat> {
    set w | w in ws && ws[w] == Woken
  }

  /** Those that will look at the work list next, without being signalled again and without a job to finish first. */
  ghost function ReadySet(ws: map<nat, Worker>): set<nat> {
    set w | w in ws && (ws[w] == Woken || ws[w] == AtLoopTop)
  }

  function Min(a: int, b: int): int {
    if a < b then a else b
  }

  ghost predicate Inv(s: State) {
    && s.sh.nwork == |s.sh.wrklist|
    && s.sh.nworker == |s.workers| <= s.lim.maxWorker
    && s.sh.idleworker == |IdleSet(s.workers)| <= s.lim.idleWorker
    && |WokenSet(s.workers)| >= Min(s.sh.nwork, s.sh.idleworker)
    && (|ReadySet(s.workers)| >= s.sh.nwork || s.sh.nworker >= s.lim.maxWorker || s.refused)
    && s.given == s.taken + s.sh.wrklist
    && (s.sh.nwork > 0 && s.workers == map[] ==> s.refused || s.lim.maxWorker == 0)
  }

  ghost function IsIdle(x: Worker): int {
    if x == Sleeping || x == Woken then 1 else 0
  }

  ghost function IsReady(x: Worker): int {
    if x == Woken || x == AtLoopTop then 1 else 0
  }

  ghost function IsWoken(x: Worker): int {
    if x == Woken then 1 else 0
  }

  /** How the sizes change when one worker changes, appears or goes. */
  lemma Recount(ws: map<nat, Worker>, ws': map<nat, Worker>, w: nat)
    requires forall x | x != w :: (x in ws <==> x in ws') && (x in ws ==> ws[x] == ws'[x])
    ensures |ws'| == |ws| + (if w in ws' then 1 else 0) - (if w in ws then 1 else 0)
    ensures |IdleSet(ws')| == |IdleSet(ws)| + (if w in ws' then IsIdle(ws'[w]) else 0)
                             - (if w in ws then IsIdle(ws[w]) else 0)
    ensures |ReadySet(ws')| == |ReadySet(ws)| + (if w in ws' then IsReady(ws'[w]) else 0)
                             - (if w in ws then IsReady(ws[w]) else 0)
    ensures |WokenSet(ws')| == |WokenSet(ws)| + (if w in ws' then IsWoken(ws'[w]) else 0)
                             - (if w in ws then IsWoken(ws[w]) else 0)
  {
    assert |ws| == |ws.Keys| && |ws'| == |ws'.Keys|;
    Differ(ws.Keys, ws'.Keys, w);
    Differ(IdleSet(ws), IdleSet(ws'), w);
    Differ(WokenSet(ws), WokenSet(ws'), w);
    Differ(ReadySet(ws), ReadySet(ws'), w);
  }

  lemma WokenAreIdle(ws: map<nat, Worker>)
    ensures |WokenSet(ws)| <= |IdleSet(ws)| <= |ws| && |WokenSet(ws)| <= |ReadySet(ws)|
    ensures (forall w | w in ws :: ws[w] != Sleeping) ==> |WokenSet(ws)| == |IdleSet(ws)|
  {
    Subset(WokenSet(ws), IdleSet(ws));
    Subset(IdleSet(ws), ws.Keys);
    Subset(WokenSet(ws), ReadySet(ws));
    if forall w | w in ws :: ws[w] != Sleeping {
      assert WokenSet(ws) == IdleSet(ws);
    }
  }

  lemma ScheduleKeeps(s: State, e: Event)
    requires Inv(s) && Enabled(s, e) && e.Schedule?
    ensures Inv(Apply(s, e))
  {
    hide IdleSet, WokenSet, ReadySet;
    var s' := Apply(s, e);
    WokenAreIdle(s.workers);
    assert s'.given == s'.taken + s'.sh.wrklist;
    match WhatToCall(Enqueued(s.sh, e.job), s.lim)
    case Signal =>
      if e.wakee in s.workers && s.workers[e.wakee] == Sleeping {
        Recount(s.workers, s'.workers, e.wakee);
      }
    case CreateWorker =>
      if e.created {
        Recount(s.workers, s'.workers, e.newcomer);
      }
    case Nothing =>
  }

  lemma TurnKeeps(s: State, w: nat)
    requires Inv(s) && Enabled(s, Turn(w))
    ensures Inv(Apply(s, Turn(w)))
  {
    hide IdleSet, WokenSet, ReadySet;
    var s' := Apply(s, Turn(w));
    WokenAreIdle(s.workers);
    Recount(s.workers, s'.workers, w);
    TakenFirst(s.sh.wrklist, s.given, s.taken);
  }

  lemma WakeupKeeps(s: State, w: nat)
    requires Inv(s) && Enabled(s, Wakeup(w))
    ensures Inv(Apply(s, Wakeup(w)))
  {
    hide IdleSet, WokenSet, ReadySet;
    var s' := Apply(s, Wakeup(w));
    WokenAreIdle(s.workers);
    Recount(s.workers, s'.workers, w);
    TakenFirst(s.sh.wrklist, s.given, s.taken);
  }

  lemma TakenFirst(wrklist: seq<Job>, given: seq<Job>, taken: seq<Job>)
    requires given == taken + wrklist
    ensures wrklist != [] ==> given == (taken + [wrklist[0]]) + wrklist[1..]
  {
  }

  /** Every step keeps the counters exact, the pool within its limits and the sleepers' debt covered. */
  lemma StepKeeps(s: State, e: Event)
    requires Inv(s) && Enabled(s, e)
    ensures Inv(Apply(s, e))
  {
    match e
    case Schedule(_, _, _, _) => ScheduleKeeps(s, e);
    case Turn(w) => TurnKeeps(s, w);
    case Wakeup(w) => WakeupKeeps(s, w);
    case Spurious(w) => Recount(s.workers, Apply(s, e).workers, w);
    case Done(w) => Recount(s.workers, Apply(s, e).workers, w);
  }

  // ----- whole runs -----

  ghost predicate Init(s: State) {
    s == State(s.lim, Shared([], 0, 0, 0), map[], [], [], false)
  }

  datatype Run = Run(states: seq<State>, events: seq<Event>) {
    ghost predicate Valid() {
      && |states| == |events| + 1
      && Init(states[0])
      && (forall i | 0 <= i < |events| :: Enabled(states[i], events[i]) && states[i + 1] == Apply(states[i], events[i]))
    }
  }

  lemma {:induction false} RunKeeps(r: Run, n: nat)
    requires r.Valid() && n < |r.states|
    ensures Inv(r.states[n])
  {
    if n == 0 {
      assert |IdleSet(map[])| == 0 && |WokenSet(map[])| == 0 && |ReadySet(map[])| == 0;
    } else {
      RunKeeps(r, n - 1);
      StepKeeps(r.states[n - 1], r.events[n - 1]);
    }
  }

  /** A worker that will look at the work list without being signalled again. */
  ghost predicate Coming(s: State, w: nat) {
    w in s.workers && s.workers[w] != Sleeping
  }

  /**
   * In every reachable state the work list is exactly the work scheduled and not yet picked up, in
   * order; the counters say what they claim; and neither limit is exceeded.
   */
  lemma CountersAreExact(r: Run, n: nat)
    requires r.Valid() && n < |r.states|
    ensures var s := r.states[n];
            && s.given == s.taken + s.sh.wrklist && s.sh.nwork == |s.sh.wrklist|
            && s.sh.nworker == |s.workers| <= s.lim.maxWorker
            && s.sh.idleworker == |IdleSet(s.workers)| <= s.lim.idleWorker
  {
    RunKeeps(r, n);
  }

  lemma SomeoneComes(s: State)
    requires Inv(s) && s.sh.wrklist != [] && s.workers != map[]
    ensures exists w :: Coming(s, w)
  {
    var w :| w in s.workers;
    if s.workers[w] == Sleeping {
      assert w in IdleSet(s.workers);
      assert |WokenSet(s.workers)| > 0;
      var v :| v in WokenSet(s.workers);
      assert Coming(s, v);
    } else {
      assert Coming(s, w);
    }
  }

  lemma NobodyWhy(s: State)
    requires Inv(s) && s.sh.wrklist != [] && s.workers == map[]
    ensures s.refused || s.lim.maxWorker == 0
  {
  }

  /**
   * No lost wakeup: while work is queued, some worker is on its way to the work list, unless there
   * is no worker at all; and that takes a failed pthread_create() or a limit of no workers.
   */
  lemma NoStrandedWork(r: Run, n: nat)
    requires r.Valid() && n < |r.states| && r.states[n].sh.wrklist != []
    ensures (exists w :: Coming(r.states[n], w))
            || (r.states[n].workers == map[] && (r.states[n].refused || r.states[n].lim.maxWorker == 0))
  {
    RunKeeps(r, n);
    var s := r.states[n];
    if s.workers != map[] {
      SomeoneComes(s);
    }
  }

  /** Every queued piece of work has a ready worker of its own, unless the pool is full or a creation has failed. */
  lemma OneWorkerEach(r: Run, n: nat)
    requires r.Valid() && n < |r.states|
    ensures var s := r.states[n];
            |ReadySet(s.workers)| >= |s.sh.wrklist| || |s.workers| == s.lim.maxWorker || s.refused
  {
    RunKeeps(r, n);
  }

  /** A worker that has finished its job is ready for the next. */
  lemma DoneIsReady(r: Run, n: nat, w: nat)
    requires r.Valid() && n < |r.events| && r.events[n] == Done(w)
    ensures w in ReadySet(r.states[n + 1].workers)
  {
  }

  /** A worker retires only if every queued piece of work has a woken worker of its own besides. */
  lemma RetiringIsSafe(r: Run, n: nat)
    requires r.Valid() && n < |r.events| && r.events[n].Turn?
    requires r.events[n].w !in r.states[n + 1].workers
    ensures |WokenSet(r.states[n + 1].workers)| >= r.states[n + 1].sh.nwork
    ensures |r.states[n + 1].workers| >= r.states[n + 1].lim.idleWorker
  {
    RunKeeps(r, n);
    RunKeeps(r, n + 1);
    WokenAreIdle(r.states[n + 1].workers);
  }

  /** A woken worker that finds work takes the oldest piece; the list moves up by one. */
  lemma OldestFirst(r: Run, n: nat)
    requires r.Valid() && n < |r.events| && r.states[n + 1].taken != r.states[n].taken
    ensures |r.states[n].taken| < |r.states[n].given|
    ensures r.states[n + 1].taken == r.states[n].taken + [r.states[n].given[|r.states[n].taken|]]
  {
    RunKeeps(r, n);
    assert r.states[n].given[|r.states[n].taken|..] == r.states[n].sh.wrklist;
  }

  // ----- the code -----

  /** The globals and where every worker is, with the routines that change them under sbamtx. */
  class Pool {
    const lim: Limits
    var wrklist: seq<Job>
    var nwork: int
    var nworker: int
    var idleworker: int
    var workers: map<nat, Worker>
    ghost var given: seq<Job>
    ghost var taken: seq<Job>
    ghost var refused: bool

    ghost function Model(): State
      reads this
    {
      State(lim, Shared(wrklist, nwork, nworker, idleworker), workers, given, taken, refused)
    }

    constructor (lim: Limits)
      ensures Init(Model()) && this.lim == lim
    {
      this.lim := lim;
      wrklist, nwork, nworker, idleworker, workers := [], 0, 0, 0, map[];
      given, taken, refused := [], [], false;
    }

    /**
     * The end of schedulework(). Whatever it decides, afterwards some worker is on its way to the
     * list, unless there is none at all, which takes a pthread_create() that failed or a limit of zero.
     */
    method ScheduleWork(job: Job, wakee: nat, created: bool, newcomer: nat)
      requires Inv(Model()) && Enabled(Model(), Schedule(job, wakee, created, newcomer))
      modifies this
      ensures Model() == Apply(old(Model()), Schedule(job, wakee, created, newcomer)) && Inv(Model())
      ensures (exists w :: Coming(Model(), w)) || (workers == map[] && (refused || lim.maxWorker == 0))
    {
      hide IdleSet, WokenSet, ReadySet, Inv;
      StepKeeps(Model(), Schedule(job, wakee, created, newcomer));
      wrklist := wrklist + [job];
      nwork := nwork + 1;
      given := given + [job];
      if nwork <= idleworker {
        if wakee in workers && workers[wakee] == Sleeping {
          workers := workers[wakee := Woken];
        }
      } else if nworker < lim.maxWorker {
        if created {
          nworker := nworker + 1;
          workers := workers[newcomer := AtLoopTop];
        } else {
          refused := true;
        }
      }
      if workers != map[] {
        SomeoneComes(Model());
      } else {
        NobodyWhy(Model());
      }
    }

    /**
     * A worker at the top of its loop. It retires only if every queued piece of work has a woken
     * worker besides; otherwise it takes the oldest piece, and sleeps only if there is none.
     */
    method Top(w: nat) returns (d: Decision)
      requires Inv(Model()) && Enabled(Model(), Turn(w))
      modifies this
      ensures Model() == Apply(old(Model()), Turn(w)) && Inv(Model())
      ensures d == Retire <==> w !in workers
      ensures d == Retire <==> old(idleworker) - old(nwork) >= lim.idleWorker
      ensures d == Retire ==> |WokenSet(workers)| >= nwork
      ensures d == Sleep ==> given == taken
      ensures d.Take? ==> workers[w] == Busy(d.job) && |old(taken)| < |given| && d.job == given[|old(taken)|]
    {
      hide IdleSet, WokenSet, ReadySet;
      StepKeeps(Model(), Turn(w));
      if idleworker - nwork >= lim.idleWorker {
        nworker := nworker - 1;
        workers := workers - {w};
        WokenAreIdle(workers);
        return Retire;
      }
      idleworker := idleworker + 1;
      d := Idle(w);
    }

    /** A woken worker with the mutex: it takes the oldest piece of work, and sleeps on only if there is none. */
    method WokenTurn(w: nat) returns (d: Decision)
      requires Inv(Model()) && Enabled(Model(), Wakeup(w))
      modifies this
      ensures Model() == Apply(old(Model()), Wakeup(w)) && Inv(Model())
      ensures d == Sleep ==> given == taken
      ensures d.Take? ==> workers[w] == Busy(d.job) && |old(taken)| < |given| && d.job == given[|old(taken)|]
    {
      hide IdleSet, WokenSet, ReadySet;
      StepKeeps(Model(), Wakeup(w));
      d := Idle(w);
    }

    /** The test of the wait loop and what follows it. */
    method Idle(w: nat) returns (d: Decision)
      requires given == taken + wrklist
      modifies this`wrklist, this`nwork, this`idleworker, this`workers, this`taken
      ensures var (sh, x) := WhileIdle(old(Model()).sh); Model() == Decide(old(Model()), w, sh, x) && d == x
      ensures given == taken + wrklist && d != Retire
      ensures d == Sleep ==> given == taken
      ensures d.Take? ==> |old(taken)| < |given| && d.job == given[|old(taken)|]
    {
      if wrklist == [] {
        workers := workers[w := Sleeping];
        return Sleep;
      }
      assert wrklist == [wrklist[0]] + wrklist[1..];
      idleworker := idleworker - 1;
      d := Take(wrklist[0]);
      wrklist := wrklist[1..];
      nwork := nwork - 1;
      workers := workers[w := Busy(d.job)];
      taken := taken + [d.job];
    }

    /** Any event carried out by the code is the step of the transition system, and keeps the invariant. */
    method Perform(e: Event)
      requires Inv(Model()) && Enabled(Model(), e)
      modifies this
      ensures Model() == Apply(old(Model()), e) && Inv(Model())
    {
      hide IdleSet, WokenSet, ReadySet;
      match e
      case Schedule(job, wakee, created, newcomer) => ScheduleWork(job, wakee, created, newcomer);
      case Turn(w) => var _ := Top(w);
      case Wakeup(w) => var _ := WokenTurn(w);
      case Spurious(w) =>
        StepKeeps(Model(), e);
        workers := workers[w := Woken];
      case Done(w) =>
        StepKeeps(Model(), e);
        workers := workers[w := AtLoopTop];
    }
  }
}
