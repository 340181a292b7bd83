/**
 * All interleavings of the main thread and the worker threads over the client table: the counts are
 * exact, a slot is reused only when nobody uses it, and a response reaches the waiter it is for.
 */
module ClientRuns {
  import opened Clients
  import opened Frames
  import opened Lists
  import opened Options

  /** `signalling` threads have closed a descriptor and are about to call signaldisco(). */
  datatype State = State(t: Table, main: Main, signalling: nat, aborted: bool)
  {
    function Set(i: nat, c: Client): State
      requires i < |t.cs|
    {
      this.(t := t.Set(i, c))
    }
  }

  datatype Event =
    // the main thread
    | Accept(ok: bool)
    | Handshake(i: nat)
    | Submit(i: nat, j: JobId)
    | Response(i: nat, frame: Stream)
    | Disconnect(i: nat)
    | Wipe
    | Drop
    | Collect
    // the threads that work for a client
    | PutWait(i: nat, j: JobId)
    | TakeNumber(i: nat, j: JobId)     // nextreq(), for a request that nobody waits for
    | SendFailed(i: nat, j: JobId)
    | Look(i: nat, j: JobId)
    | Spurious(i: nat, j: JobId)
    | FinishJob(i: nat, j: JobId)
    // whoever took a count to zero
    | Close(i: nat)
    | Signal

  /** Events at one client, which leave all others alone. */
  predicate Local(e: Event) {
    !(e.Accept? || e.Wipe? || e.Drop? || e.Collect? || e.Signal?)
  }

  ghost predicate EnabledAt(c: Client, e: Event)
    requires Local(e)
  {
    match e
    case Handshake(_) => c.pfd && c.state == NEW
    case Submit(_, j) => c.pfd && c.state == RUNNING && j !in c.jobs
    case Response(_, frame) => c.pfd && IsFrame(frame) && Class(frame) == RESP
    case Disconnect(_) => c.pfd
    case PutWait(_, j) => j in c.jobs && !Has(c.respwait, j)
    case TakeNumber(_, j) => j in c.jobs && !Has(c.respwait, j)
    case SendFailed(_, j) => Has(c.respwait, j) && c.respwait[At(c.respwait, j)].sleep == Sending
    case Look(_, j) => Has(c.respwait, j) && c.respwait[At(c.respwait, j)].sleep != Asleep
    case Spurious(_, j) => Has(c.respwait, j) && c.respwait[At(c.respwait, j)].sleep == Asleep
    case FinishJob(_, j) => j in c.jobs && !Has(c.respwait, j)
    case Close(_) => c.closing
  }

  ghost predicate Enabled(s: State, e: Event) {
    if Local(e) then
      && 1 <= e.i < |s.t.cs| && EnabledAt(s.t.cs[e.i], e)
      && (e.Handshake? || e.Submit? || e.Response? || e.Disconnect? ==> s.main == Loop)
    else match e
      case Accept(_) => s.main == Loop && s.t.maxidx < |s.t.cs|
      case Collect => s.main == Loop && s.t.maxidx < |s.t.cs|
      case Wipe => s.main.Wiping? && s.main.i < |s.t.cs|
      case Drop => s.main.Dropping? && s.main.i < |s.t.cs|
      case Signal => s.signalling > 0
  }

  ghost function ApplyAt(c: Client, e: Event): Client
    requires Local(e) && EnabledAt(c, e)
  {
    match e
    case Handshake(_) => c.(state := RUNNING)
    case Submit(_, j) => c.Submit(j)
    case Response(_, frame) => c.(respwait := Kick(c.respwait, ReqNo(frame), Body(frame)))
    case Disconnect(_) => c.Disconnect()
    case PutWait(_, j) => c.PutWait(j)
    case TakeNumber(_, _) => c.(nextreq := c.nextreq + 1)
    case SendFailed(_, j) => c.(respwait := Without(c.respwait, j))
    case Look(_, j) => c.Look(j)
    case Spurious(_, j) => c.(respwait := Put(c.respwait, j, Awake))
    case FinishJob(_, j) => c.FinishJob(j)
    case Close(_) => c.Close()
  }

  ghost function Apply(s: State, e: Event): State
    requires Enabled(s, e)
  {
    if Local(e) then
      var s' := s.Set(e.i, ApplyAt(s.t.cs[e.i], e));
      if e.Disconnect? then s'.(main := Wiping(e.i))
      else if e.Close? then s'.(signalling := s.signalling + 1)
      else s'
    else match e
      case Accept(ok) => if ok then s.(t := Connected(s.t).0, aborted := s.aborted || Connected(s.t).1) else s
      case Collect => s.(t := Collected(s.t))
      case Wipe => s.Set(s.main.i, s.t.cs[s.main.i].(nextreq := 0)).(main := Dropping(s.main.i))
      case Drop => s.Set(s.main.i, s.t.cs[s.main.i].Release()).(main := Loop)
      case Signal => s.(t := s.t.(disco := s.t.disco + 1), signalling := s.signalling - 1)
  }

  // ----- what holds of one slot -----

  /** `busy`: the main thread is disconnecting it, and has not released it yet. */
  ghost predicate Counted(c: Client, busy: bool) {
    && c.refcnt == |c.jobs| + (if c.pfd || busy then 1 else 0)
    && !(c.pfd && busy)
    && (c.fd <==> c.pfd || busy || c.jobs != {} || c.closing)
    && (c.closing ==> c.refcnt == 0)
    && (c.state == DYING <==> c.fd && !c.pfd)
    && (!c.fd ==> c.state == NEW)
    && (c.state == NEW ==> c.jobs == {})
  }

  ghost predicate Waits(c: Client) {
    && (forall k, l | 0 <= k < l < |c.respwait| :: c.respwait[k].job != c.respwait[l].job)
    && (forall k | 0 <= k < |c.respwait| :: c.respwait[k].job in c.jobs)
    && (forall k | 0 <= k < |c.respwait| && c.respwait[k].sleep == Asleep ::
          c.respwait[k].got == None && c.state != DYING)
    && (c.pfd ==> Ascending(c.respwait, c.nextreq))
  }

  ghost predicate Ascending(ws: seq<Waiter>, limit: nat) {
    && (forall k, l | 0 <= k < l < |ws| :: ws[k].reqno < ws[l].reqno)
    && (forall k | 0 <= k < |ws| :: ws[k].reqno < limit)
  }

  lemma CountedStep(c: Client, e: Event, busy: bool)
    requires Counted(c, busy) && Waits(c) && Local(e) && EnabledAt(c, e)
    ensures Counted(ApplyAt(c, e), if e.Disconnect? then true else busy)
    ensures ApplyAt(c, e).fd == (c.fd && !e.Close?)
    ensures ApplyAt(c, e).pfd ==> c.pfd
  {
    if e.Close? {
      assert c.jobs == {};
    }
  }

  lemma ReleaseStep(c: Client)
    requires Counted(c, true)
    ensures Counted(c.Release(), false)
  {
  }

  lemma NobodyLeft(c: Client)
    requires Waits(c)
    ensures c.respwait != [] ==> c.jobs != {}
  {
    if c.respwait != [] {
      assert c.respwait[0].job in c.jobs;
    }
  }

  lemma WithoutKeeps(c: Client, j: JobId)
    requires Waits(c) && Has(c.respwait, j)
    ensures Waits(c.(respwait := Without(c.respwait, j)))
    ensures !Has(Without(c.respwait, j), j)
  {
    hide At, Ascending;
    var k := At(c.respwait, j);
    var ws := Without(c.respwait, j);
    assert forall n | 0 <= n < |ws| :: ws[n] == c.respwait[if n < k then n else n + 1];
    if c.pfd {
      WithoutAscending(c.respwait, j, c.nextreq);
    }
  }

  lemma WithoutAscending(ws: seq<Waiter>, j: JobId, limit: nat)
    requires Has(ws, j) && Ascending(ws, limit)
    ensures Ascending(Without(ws, j), limit)
  {
    hide At;
    var k := At(ws, j);
    var r := Without(ws, j);
    assert forall n | 0 <= n < |r| :: r[n] == ws[if n < k then n else n + 1];
  }

  lemma KickKeeps(c: Client, reqno: nat, data: Data)
    requires Waits(c)
    ensures Waits(c.(respwait := Kick(c.respwait, reqno, data)))
  {
    hide Kick, FirstWith;
    var k := FirstWith(c.respwait, reqno);
    KickIs(c.respwait, reqno, data, k);
  }

  lemma PutKeeps(c: Client, j: JobId, x: Sleep)
    requires Waits(c) && Has(c.respwait, j)
    requires x == Asleep ==> c.respwait[At(c.respwait, j)].got == None && c.state != DYING
    ensures Waits(c.(respwait := Put(c.respwait, j, x)))
  {
  }

  lemma PutWaitKeeps(c: Client, j: JobId)
    requires Waits(c) && j in c.jobs && !Has(c.respwait, j)
    ensures Waits(c.PutWait(j))
  {
    assert forall k | 0 <= k < |c.respwait| :: c.respwait[k].job != j;
  }

  lemma HigherLimit(ws: seq<Waiter>, limit: nat)
    ensures Ascending(ws, limit) ==> Ascending(ws, limit + 1)
  {
  }

  lemma WaitsStep(c: Client, e: Event, busy: bool)
    requires Counted(c, busy) && Waits(c) && Local(e) && EnabledAt(c, e)
    ensures Waits(ApplyAt(c, e))
  {
    hide Without, Put, At, Kick, Ascending;
    match e
    case Handshake(_) =>
    case Submit(_, j) =>
    case Response(_, frame) => KickKeeps(c, ReqNo(frame), Body(frame));
    case Disconnect(_) =>
    case PutWait(_, j) => PutWaitKeeps(c, j);
    case TakeNumber(_, _) => HigherLimit(c.respwait, c.nextreq);
    case SendFailed(_, j) => WithoutKeeps(c, j);
    case Look(_, j) =>
      if c.respwait[At(c.respwait, j)].got == None && c.state != DYING {
        PutKeeps(c, j, Asleep);
      } else {
        WithoutKeeps(c, j);
      }
    case Spurious(_, j) => PutKeeps(c, j, Awake);
    case FinishJob(_, j) => assert forall k | 0 <= k < |c.respwait| :: c.respwait[k].job != j;
    case Close(_) => assert c.jobs == {};
  }

  // ----- what holds of the table -----

  ghost predicate Busy(m: Main, i: nat) {
    (m.Wiping? || m.Dropping?) && m.i == i
  }

  ghost function Occupied(cs: seq<Client>): set<nat> {
    set i | 1 <= i < |cs| && cs[i].fd
  }

  ghost predicate Slots(cs: seq<Client>, m: Main) {
    && |cs| == MAXCLI && cs[0].pfd
    && (forall i | 1 <= i < MAXCLI :: Counted(cs[i], Busy(m, i)) && Waits(cs[i]))
    && (m != Loop ==> 1 <= m.i < MAXCLI)
  }

  ghost predicate Totals(s: State) {
    && s.t.nfds == 1 + |Occupied(s.t.cs)| + s.t.disco + s.signalling <= MAXCLI
    && s.t.maxidx < |s.t.cs|
    && (forall i | 0 <= i < |s.t.cs| && s.t.cs[i].pfd :: i <= s.t.maxidx)
  }

  ghost predicate Inv(s: State) {
    Slots(s.t.cs, s.main) && Totals(s) && !s.aborted
  }

  /** One slot changes: the occupied ones change with it. */
  lemma OccupiedAfter(cs: seq<Client>, i: nat, c: Client)
    requires 1 <= i < |cs|
    ensures |Occupied(cs[i := c])| == |Occupied(cs)| + (if c.fd then 1 else 0) - (if cs[i].fd then 1 else 0)
  {
    var cs' := cs[i := c];
    assert forall n | n != i :: n in Occupied(cs) <==> n in Occupied(cs');
    Differ(Occupied(cs), Occupied(cs'), i);
  }

  lemma {:induction false} FullTable(cs: seq<Client>)
    requires |cs| >= 1 && forall i | 1 <= i < |cs| :: cs[i].fd
    ensures |Occupied(cs)| == |cs| - 1
  {
    if |cs| > 1 {
      FullTable(cs[..|cs| - 1]);
      assert Occupied(cs) == Occupied(cs[..|cs| - 1]) + {|cs| - 1};
    } else {
      assert Occupied(cs) == {};
    }
  }

  /** Room in the count is room in the table: the search for a slot cannot fail. */
  lemma SlotFound(s: State)
    requires Inv(s) && s.t.nfds != MAXCLI
    ensures 1 <= FirstFree(s.t.cs, 0) < MAXCLI
    ensures !s.t.cs[FirstFree(s.t.cs, 0)].fd
  {
    var cs := s.t.cs;
    var k := FirstFree(cs, 0);
    if k == MAXCLI {
      forall i | 1 <= i < MAXCLI
        ensures cs[i].fd
      {
        assert Counted(cs[i], Busy(s.main, i)) && !cs[i].Free();
      }
      FullTable(cs);
      assert false;
    }
    assert Counted(cs[k], Busy(s.main, k));
  }

  lemma LocalKeeps(s: State, e: Event)
    requires Inv(s) && Enabled(s, e) && Local(e)
    ensures Inv(Apply(s, e))
  {
    hide Counted, Waits, ApplyAt, EnabledAt, Occupied;
    var c := s.t.cs[e.i];
    CountedStep(c, e, Busy(s.main, e.i));
    WaitsStep(c, e, Busy(s.main, e.i));
    OccupiedAfter(s.t.cs, e.i, ApplyAt(c, e));
    CloseFrees(c, e, Busy(s.main, e.i));
  }

  lemma CloseFrees(c: Client, e: Event, busy: bool)
    requires Counted(c, busy) && Local(e) && EnabledAt(c, e)
    ensures e.Close? ==> c.fd
  {
  }

  lemma AcceptKeeps(s: State, e: Event)
    requires Inv(s) && Enabled(s, e) && e.Accept?
    ensures Inv(Apply(s, e))
  {
    hide Occupied, FirstFree;
    if e.ok && s.t.nfds != MAXCLI {
      SlotFound(s);
      var k := FirstFree(s.t.cs, 0);
      var c := s.t.cs[k];
      assert Counted(c, Busy(s.main, k)) && Waits(c);
      assert Counted(c.Connect(), false) && Waits(c.Connect());
      OccupiedAfter(s.t.cs, k, c.Connect());
    }
  }

  lemma DisconnectingKeeps(s: State, e: Event)
    requires Inv(s) && Enabled(s, e) && (e.Wipe? || e.Drop?)
    ensures Inv(Apply(s, e))
  {
    hide Occupied;
    var c := s.t.cs[s.main.i];
    assert Counted(c, true) && Waits(c);
    var c' := if e.Wipe? then c.(nextreq := 0) else c.Release();
    OccupiedAfter(s.t.cs, s.main.i, c');
    if e.Drop? {
      ReleaseStep(c);
    }
    assert Counted(c', e.Wipe?) && Waits(c');
  }

  lemma StepKeeps(s: State, e: Event)
    requires Inv(s) && Enabled(s, e)
    ensures Inv(Apply(s, e))
  {
    hide Counted, Waits, Occupied;
    if Local(e) {
      LocalKeeps(s, e);
    } else {
      match e
      case Accept(_) => AcceptKeeps(s, e);
      case Collect =>
      case Wipe => DisconnectingKeeps(s, e);
      case Drop => DisconnectingKeeps(s, e);
      case Signal =>
    }
  }

  // ----- whole runs -----

  /** spserver() before its loop; slot 0 is the listening socket's. */
  ghost predicate Init(s: State) {
    && s == State(Table(s.t.cs, 1, 0, 0), Loop, 0, false)
    && |s.t.cs| == MAXCLI
    && s.t.cs[0] == Client(true, true, NEW, 0, 0, [], {}, false)
    && (forall i | 1 <= i < MAXCLI :: s.t.cs[i] == Client(false, false, NEW, 0, 0, [], {}, false))
  }

  datatype Run = Run(states: seq<State>, events: seq<Event>) {
    ghost predicate Valid() {
      && |states| == |events| + 1
      && Init(states[0])
      && (forall n | 0 <= n < |events| :: Enabled(states[n], events[n]) && states[n + 1] == Apply(states[n], events[n]))
    }
  }

  lemma {:induction false} RunKeeps(r: Run, n: nat)
    requires r.Valid() && n < |r.states|
    ensures Inv(r.states[n])
  {
    if n == 0 {
      assert Occupied(r.states[0].t.cs) == {};
    } else {
      RunKeeps(r, n - 1);
      StepKeeps(r.states[n - 1], r.events[n - 1]);
    }
  }

  /**
   * In every reachable state the count of a client is one for its connection, kept until the main
   * thread is through with disconnecting it, and one for every piece of work queued or running.
   */
  lemma RefcountIsExact(r: Run, n: nat, i: nat)
    requires r.Valid() && n < |r.states| && 1 <= i < MAXCLI
    ensures |r.states[n].t.cs| == MAXCLI
    ensures var c := r.states[n].t.cs[i];
            c.refcnt == |c.jobs| + (if c.pfd || Busy(r.states[n].main, i) then 1 else 0)
  {
    RunKeeps(r, n);
    assert Counted(r.states[n].t.cs[i], Busy(r.states[n].main, i));
  }

  /**
   * The count of descriptors is the listening socket, all clients, and the disconnects that the main loop
   * has not heard of yet; it never passes MAXCLI; no accept runs into abort(); and poll() is given every
   * descriptor there is, within its array.
   */
  lemma NeverAborts(r: Run, n: nat)
    requires r.Valid() && n < |r.states|
    ensures var s := r.states[n];
            && !s.aborted
            && s.t.nfds == 1 + |Occupied(s.t.cs)| + s.t.disco + s.signalling <= MAXCLI == |s.t.cs|
            && s.t.maxidx < MAXCLI
            && forall i | 0 <= i < MAXCLI && s.t.cs[i].pfd :: i <= s.t.maxidx
  {
    RunKeeps(r, n);
  }

  /** After a disconnect has been collected, poll() is not given more than the highest client, if any is left. */
  lemma PollsNoMore(r: Run, n: nat)
    requires r.Valid() && n < |r.events| && r.events[n] == Collect && r.states[n].t.disco > 0
    ensures var t := r.states[n + 1].t;
            && t.disco == 0 && t.maxidx < |t.cs|
            && (t.cs[t.maxidx].pfd || forall i | 1 <= i < |t.cs| :: !t.cs[i].pfd)
  {
    RunKeeps(r, n);
    var t := r.states[n].t;
    assert Highest(t.cs, t.maxidx) == 0 ==> forall i | 1 <= i < |t.cs| :: !t.cs[i].pfd;
  }

  /** A new connection gets a slot that no thread refers to in any way. */
  lemma ReuseIsSafe(r: Run, n: nat)
    requires r.Valid() && n < |r.events| && r.events[n] == Accept(true) && r.states[n].t.nfds != MAXCLI
    ensures var s, i := r.states[n].t, FirstFree(r.states[n].t.cs, 0);
            && 1 <= i < |s.cs|
            && s.cs[i].refcnt == 0 && s.cs[i].jobs == {} && s.cs[i].respwait == [] && !s.cs[i].closing && !s.cs[i].fd
            && r.states[n + 1].t.cs == s.cs[i := s.cs[i].Connect()]
            && s.cs[i].Connect().pfd && s.cs[i].Connect().state == NEW && s.cs[i].Connect().refcnt == 1
  {
    RunKeeps(r, n);
    SlotFound(r.states[n]);
    var i := FirstFree(r.states[n].t.cs, 0);
    assert Counted(r.states[n].t.cs[i], Busy(r.states[n].main, i)) && Waits(r.states[n].t.cs[i]);
    NobodyLeft(r.states[n].t.cs[i]);
  }

  /** A descriptor is closed, and its slot made NEW, with nothing left that refers to the slot. */
  lemma CloseIsLast(r: Run, n: nat, i: nat)
    requires r.Valid() && n < |r.events| && r.events[n] == Close(i)
    ensures 1 <= i < |r.states[n].t.cs|
    ensures var c := r.states[n].t.cs[i];
            && c.fd && !c.pfd && c.state == DYING && c.refcnt == 0 && c.jobs == {} && c.respwait == []
            && !Busy(r.states[n].main, i)
  {
    RunKeeps(r, n);
    assert Counted(r.states[n].t.cs[i], Busy(r.states[n].main, i)) && Waits(r.states[n].t.cs[i]);
    NobodyLeft(r.states[n].t.cs[i]);
  }

  ghost predicate Opens(r: Run, k: nat, i: nat)
    requires r.Valid() && k < |r.events|
  {
    && r.events[k].Accept? && i < |r.states[k].t.cs| && |r.states[k + 1].t.cs| == |r.states[k].t.cs|
    && !r.states[k].t.cs[i].fd && r.states[k + 1].t.cs[i].fd
  }

  lemma OpenStep(r: Run, n: nat, i: nat)
    requires r.Valid() && n < |r.events| && 1 <= i < MAXCLI
    requires Inv(r.states[n]) && Inv(r.states[n + 1])
    requires !r.states[n].t.cs[i].fd && r.states[n + 1].t.cs[i].fd
    ensures Opens(r, n, i)
  {
    hide Counted, Waits, EnabledAt, ApplyAt, Occupied;
    var s, e := r.states[n], r.events[n];
    assert Counted(s.t.cs[i], Busy(s.main, i)) && Waits(s.t.cs[i]);
    if Local(e) && e.i == i {
      CountedStep(s.t.cs[i], e, Busy(s.main, i));
    }
  }

  lemma {:induction false} OpenedBetween(r: Run, m: nat, n: nat, i: nat) returns (k: nat)
    requires r.Valid() && m <= n < |r.states| && 1 <= i < MAXCLI
    requires forall l | m <= l <= n :: Inv(r.states[l])
    requires Inv(r.states[m]) && Inv(r.states[n])
    requires !r.states[m].t.cs[i].fd && r.states[n].t.cs[i].fd
    ensures m <= k < n && Opens(r, k, i)
  {
    if r.states[n - 1].t.cs[i].fd {
      k := OpenedBetween(r, m, n - 1, i);
    } else {
      OpenStep(r, n - 1, i);
      k := n - 1;
    }
  }

  /** A connection's descriptor is closed once: between two closes of a slot it was connected anew. */
  lemma ClosedOnce(r: Run, m: nat, n: nat, i: nat)
    requires r.Valid() && m < n < |r.events| && r.events[m] == Close(i) && r.events[n] == Close(i)
    ensures exists k :: m < k < n && Opens(r, k, i)
  {
    hide Counted, Waits, Occupied, Totals, Opens;
    forall l | 0 <= l < |r.states|
      ensures Inv(r.states[l])
    {
      RunKeeps(r, l);
    }
    CloseIsLast(r, n, i);
    var k := OpenedBetween(r, m + 1, n, i);
  }

  // ----- responses -----

  /** The thread of job j waits for the response to its request number q. */
  ghost predicate Pending(c: Client, j: JobId, q: nat) {
    exists k :: 0 <= k < |c.respwait| && c.respwait[k].job == j && c.respwait[k].reqno == q
  }

  ghost predicate Given(c: Client, j: JobId, q: nat, d: Data) {
    exists k :: 0 <= k < |c.respwait| && c.respwait[k].job == j && c.respwait[k].reqno == q
        && c.respwait[k].got == Some(d)
  }

  /** A response frame with this number and this body. */
  ghost predicate Carries(f: Stream, q: nat, d: Data) {
    IsFrame(f) && Class(f) == RESP && ReqNo(f) == q && Body(f) == d
  }

  /** Such a frame from client i is dispatched. */
  ghost predicate Delivers(e: Event, i: nat, q: nat, d: Data) {
    e.Response? && e.i == i && Carries(e.frame, q, d)
  }

  /** What waitresp() comes to when it looks. */
  datatype Outcome = StillWaiting | NotConnected | Answered(data: Data)

  ghost function OutcomeOf(c: Client, j: JobId): Outcome
    requires Has(c.respwait, j)
  {
    var w := c.respwait[At(c.respwait, j)];
    if w.got == None && c.state != DYING then StillWaiting
    else if c.state == DYING then NotConnected
    else Answered(w.got.value)
  }

  /** While a client is connected no two of its pending requests share a number, and the next is new. */
  lemma NumbersAreDistinct(r: Run, n: nat, i: nat, k: nat, l: nat)
    requires r.Valid() && n < |r.states| && 1 <= i < |r.states[n].t.cs| && r.states[n].t.cs[i].pfd
    requires k < |r.states[n].t.cs[i].respwait| && l < |r.states[n].t.cs[i].respwait| && k != l
    ensures r.states[n].t.cs[i].respwait[k].reqno != r.states[n].t.cs[i].respwait[l].reqno
    ensures r.states[n].t.cs[i].respwait[k].reqno < r.states[n].t.cs[i].nextreq
  {
    RunKeeps(r, n);
    assert Waits(r.states[n].t.cs[i]);
  }

  lemma GivenWithout(c: Client, x: JobId, j: JobId, q: nat, d: Data)
    requires Has(c.respwait, x) && Given(c.(respwait := Without(c.respwait, x)), j, q, d)
    ensures Given(c, j, q, d)
  {
    var ws := Without(c.respwait, x);
    var k :| 0 <= k < |ws| && ws[k].job == j && ws[k].reqno == q && ws[k].got == Some(d);
    WithoutIsOld(c, x, k);
  }

  lemma GivenPut(c: Client, x: JobId, how: Sleep, j: JobId, q: nat, d: Data)
    requires Has(c.respwait, x) && Given(c.(respwait := Put(c.respwait, x, how)), j, q, d)
    ensures Given(c, j, q, d)
  {
    var ws := Put(c.respwait, x, how);
    var k :| 0 <= k < |ws| && ws[k].job == j && ws[k].reqno == q && ws[k].got == Some(d);
    assert c.respwait[k].got == Some(d);
  }

  lemma GivenKick(c: Client, reqno: nat, data: Data, j: JobId, q: nat, d: Data)
    requires Given(c.(respwait := Kick(c.respwait, reqno, data)), j, q, d)
    ensures Given(c, j, q, d) || (reqno == q && data == d && Pending(c, j, q))
  {
    var ws := Kick(c.respwait, reqno, data);
    var k :| 0 <= k < |ws| && ws[k].job == j && ws[k].reqno == q && ws[k].got == Some(d);
    KickIs(c.respwait, reqno, data, FirstWith(c.respwait, reqno));
    assert c.respwait[k].job == j && c.respwait[k].reqno == q;
  }

  lemma GivenEarlier(c: Client, c': Client, j: JobId, q: nat, d: Data)
    requires Given(c', j, q, d) && |c.respwait| <= |c'.respwait| <= |c.respwait| + 1
    requires forall k | 0 <= k < |c'.respwait| && c'.respwait[k].got != None ::
               k < |c.respwait| && c'.respwait[k].(sleep := Sending) == c.respwait[k].(sleep := Sending)
    ensures Given(c, j, q, d)
  {
    var k :| 0 <= k < |c'.respwait| && c'.respwait[k].job == j && c'.respwait[k].reqno == q
        && c'.respwait[k].got == Some(d);
    assert c.respwait[k].(sleep := Sending).job == j && c.respwait[k].got == Some(d);
  }

  /** Data appears at a waiter only by a response that has its number. */
  lemma GivenStepAt(c: Client, e: Event, j: JobId, q: nat, d: Data)
    requires Local(e) && EnabledAt(c, e) && Given(ApplyAt(c, e), j, q, d)
    ensures Given(c, j, q, d) || (e.Response? && Carries(e.frame, q, d) && Pending(c, j, q))
  {
    hide Given, Pending, Put, Without, Kick, At;
    match e
    case Response(_, frame) => GivenKick(c, ReqNo(frame), Body(frame), j, q, d);
    case TakeNumber(_, _) => GivenEarlier(c, ApplyAt(c, e), j, q, d);
    case SendFailed(_, x) => GivenWithout(c, x, j, q, d);
    case Look(_, x) =>
      if OutcomeOf(c, x) == StillWaiting {
        GivenPut(c, x, Asleep, j, q, d);
      } else {
        GivenWithout(c, x, j, q, d);
      }
    case Spurious(_, x) => GivenPut(c, x, Awake, j, q, d);
    case Disconnect(_) => GivenEarlier(c, c.Disconnect(), j, q, d);
    case PutWait(_, _) => GivenEarlier(c, ApplyAt(c, e), j, q, d);
    case Handshake(_) => GivenEarlier(c, ApplyAt(c, e), j, q, d);
    case Submit(_, _) => GivenEarlier(c, ApplyAt(c, e), j, q, d);
    case FinishJob(_, _) => GivenEarlier(c, ApplyAt(c, e), j, q, d);
    case Close(_) => GivenEarlier(c, ApplyAt(c, e), j, q, d);
  }

  lemma WithoutIsOld(c: Client, x: JobId, k: nat)
    requires Has(c.respwait, x) && k < |Without(c.respwait, x)|
    ensures exists l :: 0 <= l < |c.respwait| && c.respwait[l] == Without(c.respwait, x)[k]
  {
    var a := At(c.respwait, x);
    assert Without(c.respwait, x)[k] == c.respwait[if k < a then k else k + 1];
  }

  lemma GivenStep(s: State, e: Event, i: nat, j: JobId, q: nat, d: Data)
    requires Inv(s) && Enabled(s, e) && 1 <= i < MAXCLI && |Apply(s, e).t.cs| == MAXCLI
    requires Given(Apply(s, e).t.cs[i], j, q, d)
    ensures Given(s.t.cs[i], j, q, d) || (e.Response? && e.i == i && Carries(e.frame, q, d) && Pending(s.t.cs[i], j, q))
  {
    hide EnabledAt, ApplyAt, Occupied, Counted, Waits, Pending;
    if Local(e) && e.i == i {
      GivenStepAt(s.t.cs[i], e, j, q, d);
    }
  }

  lemma GivenIsPending(c: Client, j: JobId, q: nat, d: Data)
    requires Given(c, j, q, d)
    ensures Pending(c, j, q)
  {
  }

  ghost predicate PendingAll(r: Run, m: nat, n: nat, i: nat, j: JobId, q: nat) {
    forall l | m <= l <= n && l < |r.states| && i < |r.states[l].t.cs| :: Pending(r.states[l].t.cs[i], j, q)
  }

  lemma {:induction false} GivenByResponse(r: Run, n: nat, i: nat, j: JobId, q: nat, d: Data) returns (m: nat)
    requires r.Valid() && n < |r.states| && 1 <= i < |r.states[n].t.cs| && Given(r.states[n].t.cs[i], j, q, d)
    ensures m < n && Delivers(r.events[m], i, q, d) && PendingAll(r, m, n, i, j, q)
  {
    hide Pending, Given, Apply, Enabled, Counted, Waits, Occupied;
    RunKeeps(r, n);
    GivenIsPending(r.states[n].t.cs[i], j, q, d);
    NothingGiven(r.states[0].t.cs[i], j, q, d);
    RunKeeps(r, n - 1);
    GivenStep(r.states[n - 1], r.events[n - 1], i, j, q, d);
    if Given(r.states[n - 1].t.cs[i], j, q, d) {
      m := GivenByResponse(r, n - 1, i, j, q, d);
    } else {
      m := n - 1;
    }
  }

  lemma NothingGiven(c: Client, j: JobId, q: nat, d: Data)
    ensures c.respwait == [] ==> !Given(c, j, q, d)
  {
  }

  /**
   * waitresp() succeeds only with the data of a response frame that came from its own client, with
   * its own request number, while it was waiting.
   */
  lemma ResponseMatches(r: Run, n: nat)
    requires r.Valid() && n < |r.events| && r.events[n].Look?
    requires var e := r.events[n]; OutcomeOf(r.states[n].t.cs[e.i], e.j).Answered?
    ensures var i, j := r.events[n].i, r.events[n].j;
            var ws := r.states[n].t.cs[i].respwait;
            var q := ws[At(ws, j)].reqno;
            exists m :: 0 <= m < n && PendingAll(r, m, n, i, j, q)
                        && Delivers(r.events[m], i, q, OutcomeOf(r.states[n].t.cs[i], j).data)
  {
    var i, j := r.events[n].i, r.events[n].j;
    var c := r.states[n].t.cs[i];
    var w := c.respwait[At(c.respwait, j)];
    assert Given(c, j, w.reqno, w.got.value);
    var m := GivenByResponse(r, n, i, j, w.reqno, w.got.value);
  }

  /** Nobody sleeps through a response or a disconnect. */
  lemma NobodySleepsThrough(r: Run, n: nat, i: nat, k: nat)
    requires r.Valid() && n < |r.states| && 1 <= i < |r.states[n].t.cs| && k < |r.states[n].t.cs[i].respwait|
    requires r.states[n].t.cs[i].respwait[k].sleep == Asleep
    ensures r.states[n].t.cs[i].pfd && r.states[n].t.cs[i].respwait[k].got == None
  {
    RunKeeps(r, n);
    assert Waits(r.states[n].t.cs[i]) && Counted(r.states[n].t.cs[i], Busy(r.states[n].main, i));
  }

  lemma DyingStep(s: State, e: Event, i: nat)
    requires Inv(s) && Enabled(s, e) && 1 <= i < MAXCLI && |Apply(s, e).t.cs| == MAXCLI
    requires s.t.cs[i].state == DYING && s.t.cs[i].jobs != {}
    ensures Apply(s, e).t.cs[i].state == DYING
  {
    hide Occupied, Waits;
    assert Counted(s.t.cs[i], Busy(s.main, i));
  }

  /** While a job lasts, its client stays DYING: the slot is not reused under it. */
  lemma {:induction false} DyingLasts(r: Run, m: nat, n: nat, i: nat, j: JobId)
    requires r.Valid() && m <= n < |r.states| && 1 <= i < MAXCLI
    requires forall l | m <= l <= n :: |r.states[l].t.cs| == MAXCLI && j in r.states[l].t.cs[i].jobs
    requires r.states[m].t.cs[i].state == DYING
    ensures r.states[n].t.cs[i].state == DYING
  {
    if m < n {
      DyingLasts(r, m, n - 1, i, j);
      RunKeeps(r, n - 1);
      DyingStep(r.states[n - 1], r.events[n - 1], i);
    }
  }

  /**
   * Once its client is disconnected, a waiter that looks is through, with ENOTCONN, whatever
   * happened in between; it no longer waits and it has left the queue.
   */
  lemma DisconnectReleases(r: Run, m: nat, n: nat, i: nat, j: JobId)
    requires r.Valid() && m < n < |r.events| && r.events[m] == Disconnect(i) && r.events[n] == Look(i, j)
    requires forall l | m < l <= n :: i < |r.states[l].t.cs| && j in r.states[l].t.cs[i].jobs
    ensures OutcomeOf(r.states[n].t.cs[i], j) == NotConnected
    ensures |r.states[n + 1].t.cs| == MAXCLI && !Has(r.states[n + 1].t.cs[i].respwait, j)
  {
    forall l | 0 <= l < |r.states|
      ensures Inv(r.states[l])
    {
      RunKeeps(r, l);
    }
    DyingLasts(r, m + 1, n, i, j);
    var c := r.states[n].t.cs[i];
    assert Waits(c);
    WithoutKeeps(c, j);
  }
}
