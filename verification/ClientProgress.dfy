/**
 * What the steps of the client table achieve, in every run: a response reaches its waiter and is what the
 * waiter gets, jobs are those submitted and not finished, numbers are not given twice, the main thread gets
 * back to its loop, and descriptors that were closed come back.
 */
module ClientProgress {
  import opened Clients
  import opened ClientRuns
  import opened Frames
  import opened Options

  // ----- responses -----

  lemma KickGives(c: Client, j: JobId, q: nat, d: Data)
    requires Waits(c) && c.pfd && Pending(c, j, q)
    ensures var c' := c.(respwait := Kick(c.respwait, q, d));
            Given(c', j, q, d) && Has(c'.respwait, j) && c'.respwait[At(c'.respwait, j)].sleep != Asleep
  {
    hide At, Kick;
    var k :| 0 <= k < |c.respwait| && c.respwait[k].job == j && c.respwait[k].reqno == q;
    KickIs(c.respwait, q, d, k);
    var ws := Kick(c.respwait, q, d);
    assert ws[k].job == j && ws[k].reqno == q && ws[k].got == Some(d);
    assert At(ws, j) == k;
  }

  /** A response to a pending request is stored with its waiter, and the waiter is awake. */
  lemma ResponseArrives(r: Run, n: nat, j: JobId)
    requires r.Valid() && n < |r.events| && r.events[n].Response?
    requires Pending(r.states[n].t.cs[r.events[n].i], j, ReqNo(r.events[n].frame))
    ensures var i, f := r.events[n].i, r.events[n].frame;
            && |r.states[n + 1].t.cs| == MAXCLI
            && var c := r.states[n + 1].t.cs[i];
               Given(c, j, ReqNo(f), Body(f)) && Has(c.respwait, j) && c.respwait[At(c.respwait, j)].sleep != Asleep
  {
    hide Counted, Occupied, Kick, Given, At, Class, ReqNo, FrameLen, Pending;
    RunKeeps(r, n);
    var i, f := r.events[n].i, r.events[n].frame;
    assert Waits(r.states[n].t.cs[i]);
    KickGives(r.states[n].t.cs[i], j, ReqNo(f), Body(f));
  }

  lemma OthersKeep(ws: seq<Waiter>, q: nat, d: Data, k: nat)
    requires k < |ws| && ws[k].reqno != q
    ensures |Kick(ws, q, d)| == |ws| && Kick(ws, q, d)[k] == ws[k]
  {
    KickIs(ws, q, d, FirstWith(ws, q));
  }

  /** An answer stays while its waiter does and no other response with the number comes. */
  lemma GivenStaysAt(c: Client, e: Event, j: JobId, q: nat, d: Data)
    requires Waits(c) && Local(e) && EnabledAt(c, e) && Given(c, j, q, d) && Pending(ApplyAt(c, e), j, q)
    requires e.Response? && |e.frame| >= HDRSZ ==> ReqNo(e.frame) != q
    requires e.PutWait? ==> e.j != j
    ensures Given(ApplyAt(c, e), j, q, d)
  {
    hide FrameLen, Class, ReqNo, Kick, Without, At;
    var c' := ApplyAt(c, e);
    var ws := c.respwait;
    var k :| 0 <= k < |ws| && ws[k].job == j && ws[k].reqno == q && ws[k].got == Some(d);
    match e
    case Response(_, f) => OthersKeep(ws, ReqNo(f), Body(f), k);
    case SendFailed(_, x) => WithoutHasRest(c, x, j, k);
    case Look(_, x) =>
      if OutcomeOf(c, x) == StillWaiting {
        assert c'.respwait[k].got == Some(d) && c'.respwait[k].job == j && c'.respwait[k].reqno == q;
      } else {
        WithoutHasRest(c, x, j, k);
      }
    case Spurious(_, x) => assert c'.respwait[k].got == Some(d) && c'.respwait[k].job == j && c'.respwait[k].reqno == q;
    case Disconnect(_) => assert c'.respwait[k] == Wake(c.respwait[k]);
    case PutWait(_, _) => assert c'.respwait[k] == c.respwait[k];
    case _ =>
  }

  lemma WithoutHasRest(c: Client, x: JobId, j: JobId, k: nat)
    requires Waits(c) && Has(c.respwait, x) && k < |c.respwait| && c.respwait[k].job == j
    requires exists l :: 0 <= l < |Without(c.respwait, x)| && Without(c.respwait, x)[l].job == j
    ensures exists l :: 0 <= l < |Without(c.respwait, x)| && Without(c.respwait, x)[l] == c.respwait[k]
  {
    hide At;
    var a := At(c.respwait, x);
    var ws := Without(c.respwait, x);
    assert forall n | 0 <= n < |ws| :: ws[n] == c.respwait[if n < a then n else n + 1];
    assert a != k;
    assert ws[if k < a then k else k - 1] == c.respwait[k];
  }

  lemma GivenStays(s: State, e: Event, i: nat, j: JobId, q: nat, d: Data)
    requires Inv(s) && Enabled(s, e) && 1 <= i < MAXCLI && |Apply(s, e).t.cs| == MAXCLI
    requires Given(s.t.cs[i], j, q, d) && Pending(Apply(s, e).t.cs[i], j, q)
    requires !Answers(e, i, q)
    ensures Given(Apply(s, e).t.cs[i], j, q, d)
  {
    hide EnabledAt, ApplyAt, Occupied, Counted, Waits, Pending, Given, ReqNo, Class, IsFrame;
    assert Waits(s.t.cs[i]) && Counted(s.t.cs[i], Busy(s.main, i));
    if Local(e) && e.i == i {
      NotWaitingTwice(s.t.cs[i], e, j, q, d);
      GivenStaysAt(s.t.cs[i], e, j, q, d);
    } else if e.Accept? {
      AcceptLeaves(s, e, i, j, q, d);
    } else {
      SameQueue(s.t.cs[i], Apply(s, e).t.cs[i], j, q, d);
    }
  }

  lemma SameQueue(c: Client, c': Client, j: JobId, q: nat, d: Data)
    requires c'.respwait == c.respwait && Given(c, j, q, d)
    ensures Given(c', j, q, d)
  {
  }

  lemma NotWaitingTwice(c: Client, e: Event, j: JobId, q: nat, d: Data)
    requires Local(e) && EnabledAt(c, e) && Given(c, j, q, d)
    ensures e.PutWait? ==> e.j != j
  {
  }

  lemma AcceptLeaves(s: State, e: Event, i: nat, j: JobId, q: nat, d: Data)
    requires Inv(s) && Enabled(s, e) && e.Accept? && 1 <= i < MAXCLI && Given(s.t.cs[i], j, q, d)
    ensures |Apply(s, e).t.cs| == MAXCLI && Apply(s, e).t.cs[i] == s.t.cs[i]
  {
    hide Occupied, FirstFree;
    assert Waits(s.t.cs[i]) && Counted(s.t.cs[i], Busy(s.main, i));
    assert s.t.cs[i].jobs != {};
  }

  lemma {:induction false} GivenLasts(r: Run, m: nat, n: nat, i: nat, j: JobId, q: nat, d: Data)
    requires r.Valid() && m <= n < |r.states| && 1 <= i < MAXCLI && PendingAll(r, m, n, i, j, q)
    requires |r.states[m].t.cs| == MAXCLI && Given(r.states[m].t.cs[i], j, q, d)
    requires forall l | m <= l < n :: !Answers(r.events[l], i, q)
    ensures |r.states[n].t.cs| == MAXCLI && Given(r.states[n].t.cs[i], j, q, d)
  {
    hide Apply, Enabled, Counted, Waits, Occupied, Pending, Given, ReqNo, Totals;
    RunKeeps(r, n);
    if m < n {
      RunKeeps(r, n - 1);
      GivenLasts(r, m, n - 1, i, j, q, d);
      GivenStays(r.states[n - 1], r.events[n - 1], i, j, q, d);
    }
  }

  /** A response with this number from client i. */
  ghost predicate Answers(e: Event, i: nat, q: nat) {
    e.Response? && e.i == i && |e.frame| >= HDRSZ && ReqNo(e.frame) == q
  }

  /**
   * A response is received: if the client of a waiter is still connected when the waiter looks, and no later
   * response had the number, waitresp() succeeds with the body of this one.
   */
  lemma ResponseIsReceived(r: Run, m: nat, n: nat, i: nat, j: JobId)
    requires r.Valid() && m < n < |r.events| && r.events[m].Response? && r.events[m].i == i && r.events[n] == Look(i, j)
    requires PendingAll(r, m, n, i, j, ReqNo(r.events[m].frame))
    requires forall l | m < l < n :: !Answers(r.events[l], i, ReqNo(r.events[m].frame))
    requires r.states[n].t.cs[i].pfd
    ensures OutcomeOf(r.states[n].t.cs[i], j) == Answered(Body(r.events[m].frame))
  {
    hide Counted, Occupied, Kick, ReqNo, Class, FrameLen;
    var f := r.events[m].frame;
    RunKeeps(r, m);
    RunKeeps(r, n);
    assert Pending(r.states[m].t.cs[i], j, ReqNo(f));
    ResponseArrives(r, m, j);
    PendingLess(r, m, m + 1, n, i, j, ReqNo(f));
    GivenLasts(r, m + 1, n, i, j, ReqNo(f), Body(f));
    LookSees(r.states[n], i, j, ReqNo(f), Body(f));
  }

  lemma PendingLess(r: Run, m: nat, m': nat, n: nat, i: nat, j: JobId, q: nat)
    requires PendingAll(r, m, n, i, j, q) && m <= m'
    ensures PendingAll(r, m', n, i, j, q)
  {
  }

  lemma LookSees(s: State, i: nat, j: JobId, q: nat, d: Data)
    requires Inv(s) && 1 <= i < MAXCLI && s.t.cs[i].pfd && Given(s.t.cs[i], j, q, d)
    ensures Has(s.t.cs[i].respwait, j) && OutcomeOf(s.t.cs[i], j) == Answered(d)
  {
    hide Occupied, At;
    var c := s.t.cs[i];
    assert Waits(c) && Counted(c, Busy(s.main, i));
    var ws := c.respwait;
    var k :| 0 <= k < |ws| && ws[k].job == j && ws[k].reqno == q && ws[k].got == Some(d);
    assert At(c.respwait, j) == k;
  }

  /** A thread whose send failed is off the queue. */
  lemma FailedSendLeaves(r: Run, n: nat, i: nat, j: JobId)
    requires r.Valid() && n < |r.events| && r.events[n] == SendFailed(i, j)
    ensures |r.states[n + 1].t.cs| == MAXCLI && !Has(r.states[n + 1].t.cs[i].respwait, j)
  {
    hide Counted, Occupied;
    RunKeeps(r, n);
    assert Waits(r.states[n].t.cs[i]);
    WithoutKeeps(r.states[n].t.cs[i], j);
  }

  /** A waiter that has nothing to leave for goes to sleep; any other leaves the queue. */
  lemma LookEnds(r: Run, n: nat, i: nat, j: JobId)
    requires r.Valid() && n < |r.events| && r.events[n] == Look(i, j)
    ensures |r.states[n + 1].t.cs| == MAXCLI
    ensures var c, c' := r.states[n].t.cs[i], r.states[n + 1].t.cs[i];
            if c.pfd && c.respwait[At(c.respwait, j)].got == None
            then Has(c'.respwait, j) && c'.respwait[At(c'.respwait, j)].sleep == Asleep
            else !Has(c'.respwait, j)
  {
    hide Occupied, At;
    RunKeeps(r, n);
    var c := r.states[n].t.cs[i];
    assert Waits(c) && Counted(c, Busy(r.states[n].main, i));
    if c.pfd && c.respwait[At(c.respwait, j)].got == None {
      SleepsInPlace(c, j);
    } else {
      WithoutKeeps(c, j);
    }
  }

  lemma SleepsInPlace(c: Client, j: JobId)
    requires Waits(c) && Has(c.respwait, j)
    ensures var ws := Put(c.respwait, j, Asleep); Has(ws, j) && ws[At(ws, j)].sleep == Asleep
  {
    hide At;
    var k := At(c.respwait, j);
    var ws := Put(c.respwait, j, Asleep);
    assert ws[k].job == j;
    assert At(ws, j) == k;
  }

  // ----- introductions -----

  lemma RunningStep(s: State, e: Event, i: nat)
    requires Inv(s) && Enabled(s, e) && 1 <= i < MAXCLI
    ensures |Apply(s, e).t.cs| == MAXCLI
    ensures Apply(s, e).t.cs[i].state == RUNNING ==> s.t.cs[i].state == RUNNING || e == Handshake(i)
  {
    hide Counted, Waits, Occupied, Highest, Kick, WakeAll, Without, Put, At, IsFrame, Class;
  }

  /** A client that is RUNNING has introduced itself, on this connection: work is done for nobody else. */
  lemma {:induction false} IntroducedFirst(r: Run, n: nat, i: nat) returns (m: nat)
    requires r.Valid() && n < |r.states| && 1 <= i < |r.states[n].t.cs| && r.states[n].t.cs[i].state == RUNNING
    ensures m < n && r.events[m] == Handshake(i)
    ensures forall l | m < l <= n && i < |r.states[l].t.cs| :: r.states[l].t.cs[i].state == RUNNING
  {
    hide Apply, Enabled, Counted, Waits, Occupied, Totals;
    RunKeeps(r, n);
    RunKeeps(r, n - 1);
    RunningStep(r.states[n - 1], r.events[n - 1], i);
    if r.states[n - 1].t.cs[i].state == RUNNING {
      m := IntroducedFirst(r, n - 1, i);
    } else {
      m := n - 1;
    }
  }

  // ----- jobs -----

  /** The work submitted for client i and not finished. */
  ghost function Outstanding(r: Run, n: nat, i: nat): set<JobId>
    requires r.Valid() && n <= |r.events|
  {
    if n == 0 then {} else JobsAfter(r.events[n - 1], i, Outstanding(r, n - 1, i))
  }

  function JobsAfter(e: Event, i: nat, jobs: set<JobId>): set<JobId> {
    if e.Submit? && e.i == i then jobs + {e.j}
    else if e.FinishJob? && e.i == i then jobs - {e.j}
    else jobs
  }

  lemma JobsStep(s: State, e: Event, i: nat)
    requires Inv(s) && Enabled(s, e) && 1 <= i < MAXCLI
    ensures |Apply(s, e).t.cs| == MAXCLI && Apply(s, e).t.cs[i].jobs == JobsAfter(e, i, s.t.cs[i].jobs)
  {
    hide Counted, Waits, Occupied, FirstFree, Highest, Kick, WakeAll, Without, Put, At, IsFrame, Class;
  }

  /** The jobs that keep a client's slot in use are exactly those. */
  lemma {:induction false} JobsAreOutstanding(r: Run, n: nat, i: nat)
    requires r.Valid() && n <= |r.events| && 1 <= i < MAXCLI
    ensures |r.states[n].t.cs| == MAXCLI && r.states[n].t.cs[i].jobs == Outstanding(r, n, i)
  {
    hide Apply, Enabled, Counted, Waits, Occupied, Totals, Slots;
    if n > 0 {
      JobsAreOutstanding(r, n - 1, i);
      RunKeeps(r, n - 1);
      JobsStep(r.states[n - 1], r.events[n - 1], i);
    }
  }

  // ----- numbers -----

  /** The step gives out the next number of client i, with or without somebody who waits for the response. */
  predicate Numbers(e: Event, i: nat) {
    (e.PutWait? || e.TakeNumber?) && e.i == i
  }

  lemma NumberStep(s: State, e: Event, i: nat)
    requires Inv(s) && Enabled(s, e) && 1 <= i < MAXCLI && s.t.cs[i].pfd
    ensures |Apply(s, e).t.cs| == MAXCLI
    ensures Apply(s, e).t.cs[i].nextreq == s.t.cs[i].nextreq + (if Numbers(e, i) then 1 else 0)
    ensures e.PutWait? && e.i == i ==> Pending(Apply(s, e).t.cs[i], e.j, s.t.cs[i].nextreq)
  {
    hide Waits, Occupied, FirstFree, Highest, Kick, WakeAll, Without, Put, At, IsFrame, Class;
    assert Counted(s.t.cs[i], Busy(s.main, i));
    if e.PutWait? && e.i == i {
      var ws := Apply(s, e).t.cs[i].respwait;
      assert ws[|ws| - 1].job == e.j && ws[|ws| - 1].reqno == s.t.cs[i].nextreq;
    }
  }

  /** Over a connection the numbers given out are each one more than the one before, so that none is given twice. */
  lemma {:induction false} NumbersGrow(r: Run, m: nat, n: nat, i: nat)
    requires r.Valid() && m < n <= |r.events| && 1 <= i < MAXCLI && Numbers(r.events[m], i)
    requires forall l | m <= l <= n :: |r.states[l].t.cs| == MAXCLI && r.states[l].t.cs[i].pfd
    ensures r.states[m].t.cs[i].nextreq < r.states[n].t.cs[i].nextreq
  {
    hide Apply, Enabled, Counted, Waits, Occupied, Totals;
    RunKeeps(r, n - 1);
    NumberStep(r.states[n - 1], r.events[n - 1], i);
    if m < n - 1 {
      NumbersGrow(r, m, n - 1, i);
    }
  }

  // ----- the main thread -----

  /** A handshake makes the client RUNNING, so that its requests become work. */
  lemma HandshakeRuns(r: Run, n: nat, i: nat, j: JobId)
    requires r.Valid() && n < |r.events| && r.events[n] == Handshake(i)
    ensures Enabled(r.states[n + 1], Submit(i, j))
  {
    hide Waits, Occupied;
    RunKeeps(r, n);
    assert Counted(r.states[n].t.cs[i], Busy(r.states[n].main, i));
  }

  /** Disconnecting a client takes two more steps, which nothing prevents; then the main thread is in its loop again. */
  lemma MainReturns(r: Run, n: nat)
    requires r.Valid() && n < |r.states|
    ensures var s := r.states[n];
            match s.main
            case Loop => true
            case Wiping(i) => Enabled(s, Wipe) && Apply(s, Wipe).main == Dropping(i)
                              && Apply(s, Wipe).t.cs[i].nextreq == 0
            case Dropping(i) => Enabled(s, Drop) && Apply(s, Drop).main == Loop
                                && (Apply(s, Drop).t.cs[i].closing <==> s.t.cs[i].jobs == {})
  {
    hide Waits, Occupied;
    RunKeeps(r, n);
    var s := r.states[n];
    if s.main != Loop {
      assert Counted(s.t.cs[s.main.i], true);
    }
  }

  /** All threads that have closed a descriptor get to say so. */
  ghost function AllSignalled(s: State): State
    decreases s.signalling
  {
    if s.signalling == 0 then s else AllSignalled(Apply(s, Signal))
  }

  lemma {:induction false} SignalsCount(s: State)
    ensures AllSignalled(s) == s.(t := s.t.(disco := s.t.disco + s.signalling), signalling := 0)
    decreases s.signalling
  {
    if s.signalling > 0 {
      SignalsCount(Apply(s, Signal));
    }
  }

  /** Descriptors come back: once they have, and the main loop has looked, the count is of the clients there are. */
  lemma DescriptorsComeBack(r: Run, n: nat)
    requires r.Valid() && n < |r.states| && r.states[n].main == Loop
    ensures var s := AllSignalled(r.states[n]);
            && Enabled(s, Collect)
            && Apply(s, Collect).t.nfds == 1 + |Occupied(r.states[n].t.cs)| && Apply(s, Collect).t.disco == 0
  {
    hide Counted, Waits, Occupied, Highest;
    RunKeeps(r, n);
    SignalsCount(r.states[n]);
  }
}
