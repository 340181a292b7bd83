/**
 * The server's own code on the client table: globals updated in place by the main thread and by the
 * threads that work for clients, each routine carried out as the step of the transition system.
 */
module ClientServer {
  import opened Clients
  import opened ClientRuns
  import opened Frames
  import opened Options

  class Server {
    var spclist: seq<Client>
    var nfds: int
    var maxidx: nat
    var disco: nat
    var main: Main               // where the main thread is
    var signalling: nat          // threads between closing a descriptor and signaldisco()
    var aborted: bool

    ghost function Table(): Table
      reads this
    {
      Clients.Table(spclist, nfds, maxidx, disco)
    }

    ghost function Model(): State
      reads this
    {
      State(Table(), main, signalling, aborted)
    }

    /** spserver() before its loop. */
    constructor ()
      ensures Init(Model())
    {
      var unused := Client(false, false, NEW, 0, 0, [], {}, false);
      spclist := [unused.(pfd := true, fd := true)] + seq(MAXCLI - 1, i => unused);
      nfds, maxidx, disco := 1, 0, 0;
      main, signalling, aborted := Loop, 0, false;
    }

    // ----- the main thread -----

    /** serv_handleconn() and what the main loop does with its result; true is an abort. */
    method HandleConn(accepted: bool) returns (abort: bool)
      requires maxidx < |spclist|
      modifies this`spclist, this`nfds, this`maxidx
      ensures (Table(), abort) == if accepted then Connected(old(Table())) else (old(Table()), false)
    {
      if !accepted || nfds == MAXCLI {
        return false;
      }
      var i := 0;
      while i < |spclist| && !spclist[i].Free()
        invariant i <= |spclist|
        invariant FirstFree(spclist, 0) == FirstFree(spclist, i)
      {
        i := i + 1;
      }
      if i == |spclist| {
        return true;
      }
      spclist := spclist[i := spclist[i].Connect()];
      if i != 0 {
        nfds := nfds + 1;
      }
      if i > maxidx {
        maxidx := i;
      }
      return false;
    }

    /** The top of the main loop. */
    method Collect()
      requires maxidx < |spclist|
      modifies this`nfds, this`maxidx, this`disco
      ensures Table() == Collected(old(Table()))
    {
      var discoed := disco;
      disco := 0;
      ghost var all := discoed;
      while discoed > 0
        invariant 0 <= discoed <= all
        invariant disco == 0 && maxidx < |spclist|
        invariant nfds == old(nfds) - (all - discoed)
        invariant Highest(spclist, maxidx) == Highest(spclist, old(maxidx))
        invariant discoed == all ==> maxidx == old(maxidx)
        invariant discoed < all ==>
          maxidx == (if Highest(spclist, old(maxidx)) == 0 then old(maxidx) else Highest(spclist, old(maxidx)))
      {
        discoed := discoed - 1;
        nfds := nfds - 1;
        var idx := maxidx;
        while idx > 0 && !spclist[idx].pfd
          invariant 0 <= idx <= maxidx
          invariant Highest(spclist, idx) == Highest(spclist, maxidx)
        {
          idx := idx - 1;
        }
        if idx > 0 {
          maxidx := idx;
        }
      }
    }

    /** kickwaiter() for a response frame of client i. */
    method KickWaiter(i: nat, frame: Stream)
      requires i < |spclist| && IsFrame(frame)
      modifies this`spclist
      ensures var c := old(spclist)[i];
              spclist == old(spclist)[i := c.(respwait := Kick(c.respwait, ReqNo(frame), Body(frame)))]
    {
      hide FrameLen, ReqNo;
      var ws := spclist[i].respwait;
      var k := FindWaiter(ws, ReqNo(frame));
      KickIs(ws, ReqNo(frame), Body(frame), k);
      if k < |ws| {
        ws := ws[k := Wake(ws[k]).(got := Some(Body(frame)))];
      }
      spclist := spclist[i := spclist[i].(respwait := ws)];
    }

    /** serv_handledisco() under the mutex, with kickall() going through the queue. */
    method HandleDisco(i: nat)
      requires i < |spclist|
      modifies this`spclist
      ensures spclist == old(spclist)[i := old(spclist)[i].Disconnect()]
    {
      var ws := spclist[i].respwait;
      for k := 0 to |ws|
        invariant |ws| == |spclist[i].respwait| && spclist == old(spclist)
        invariant forall n | 0 <= n < |ws| ::
          ws[n] == if n < k then Wake(spclist[i].respwait[n]) else spclist[i].respwait[n]
      {
        ws := ws[k := Wake(ws[k])];
      }
      assert ws == WakeAll(spclist[i].respwait);
      spclist := spclist[i := spclist[i].(pfd := false, state := DYING, respwait := ws)];
    }

    // ----- any thread -----

    /** spcrelease() up to the test of the count: whether this was the last reference. */
    method Release(i: nat) returns (last: bool)
      requires 1 <= i < |spclist| && spclist[i].refcnt > 0 && !spclist[i].closing
      modifies this`spclist
      ensures spclist == old(spclist)[i := old(spclist)[i].Release()]
      ensures last == spclist[i].closing
      ensures last <==> old(spclist[i].refcnt) == 1
    {
      var ref := spclist[i].refcnt - 1;
      last := ref <= 0;
      spclist := spclist[i := spclist[i].(refcnt := ref, closing := last)];
    }

    /** A worker is through with a job: whether it has to close is decided by who is left. */
    method FinishJob(i: nat, j: JobId) returns (last: bool)
      requires Inv(Model()) && Enabled(Model(), Event.FinishJob(i, j))
      modifies this`spclist
      ensures Model() == Apply(old(Model()), Event.FinishJob(i, j)) && Inv(Model())
      ensures last <==> old(spclist[i].jobs) == {j} && !old(spclist[i].pfd) && !Busy(main, i)
    {
      hide Waits, Totals, Occupied, Kick, FirstFree, Highest;
      StepKeeps(Model(), Event.FinishJob(i, j));
      ghost var c := spclist[i];
      assert Counted(c, Busy(main, i));
      JobsLeft(c, j);
      spclist := spclist[i := spclist[i].(jobs := spclist[i].jobs - {j})];
      last := Release(i);
    }

    /** The rest of spcrelease() but for signaldisco(): the slot is free, and nothing refers to it. */
    method CloseSlot(i: nat)
      requires Inv(Model()) && Enabled(Model(), Close(i))
      modifies this`spclist, this`signalling
      ensures Model() == Apply(old(Model()), Close(i)) && Inv(Model())
      ensures spclist[i].Free() && spclist[i].refcnt == 0 && spclist[i].jobs == {} && spclist[i].respwait == []
    {
      StepKeeps(Model(), Close(i));
      assert Counted(spclist[i], Busy(main, i)) && Waits(spclist[i]);
      NobodyLeft(spclist[i]);
      spclist := spclist[i := spclist[i].(fd := false, state := NEW, closing := false)];
      signalling := signalling + 1;
    }

    /** doputwait(): the number handed out is pending for nobody else while the client is connected. */
    method PutWait(i: nat, j: JobId) returns (reqno: nat)
      requires Inv(Model()) && Enabled(Model(), Event.PutWait(i, j))
      modifies this`spclist
      ensures Model() == Apply(old(Model()), Event.PutWait(i, j)) && Inv(Model())
      ensures Pending(spclist[i], j, reqno)
      ensures spclist[i].pfd ==> forall x | Pending(spclist[i], x, reqno) :: x == j
    {
      StepKeeps(Model(), Event.PutWait(i, j));
      var c := spclist[i];
      assert Waits(c);
      reqno := c.nextreq;
      spclist := spclist[i := c.(nextreq := reqno + 1, respwait := c.respwait + [Waiter(j, reqno, None, Sending)])];
      assert spclist[i].respwait[|c.respwait|].reqno == reqno;
    }

    /** One turn of the loop in waitresp(), and what follows it: whether the wait is over. */
    method Look(i: nat, j: JobId) returns (over: bool)
      requires Inv(Model()) && Enabled(Model(), Event.Look(i, j))
      modifies this`spclist
      ensures Model() == Apply(old(Model()), Event.Look(i, j)) && Inv(Model())
      ensures over <==> OutcomeOf(old(spclist[i]), j) != StillWaiting
      ensures over <==> !Has(spclist[i].respwait, j)
      ensures !over ==> spclist[i].respwait[At(spclist[i].respwait, j)].sleep == Asleep
    {
      StepKeeps(Model(), Event.Look(i, j));
      var c := spclist[i];
      assert Waits(c);
      var k := At(c.respwait, j);
      over := c.respwait[k].got != None || c.state == DYING;
      if over {
        WithoutKeeps(c, j);
        spclist := spclist[i := c.(respwait := c.respwait[..k] + c.respwait[k + 1..])];
      } else {
        spclist := spclist[i := c.(respwait := c.respwait[k := c.respwait[k].(sleep := Asleep)])];
        assert spclist[i].respwait[k].job == j;
      }
    }

    /** Events that change one field or two. */
    method PerformSmall(e: Event)
      requires Enabled(Model(), e) && (e.Handshake? || e.Submit? || e.TakeNumber? || e.SendFailed?
                                         || e.Spurious? || e.Signal? || e.Wipe?)
      modifies this
      ensures Model() == Apply(old(Model()), e)
    {
      match e
      case Handshake(i) => spclist := spclist[i := spclist[i].(state := RUNNING)];
      case Submit(i, j) =>
        var c := spclist[i];
        spclist := spclist[i := c.(refcnt := c.refcnt + 1, jobs := c.jobs + {j})];
      case TakeNumber(i, _) => spclist := spclist[i := spclist[i].(nextreq := spclist[i].nextreq + 1)];
      case SendFailed(i, j) =>
        var ws := spclist[i].respwait;
        var k := At(ws, j);
        spclist := spclist[i := spclist[i].(respwait := ws[..k] + ws[k + 1..])];
      case Spurious(i, j) =>
        var ws := spclist[i].respwait;
        var k := At(ws, j);
        spclist := spclist[i := spclist[i].(respwait := ws[k := ws[k].(sleep := Awake)])];
      case Signal =>
        disco := disco + 1;
        signalling := signalling - 1;
      case Wipe =>
        spclist := spclist[main.i := spclist[main.i].(nextreq := 0)];
        main := Dropping(main.i);
    }

    /** Any event carried out by the code is the step of the transition system, and keeps the invariant. */
    method Perform(e: Event)
      requires Inv(Model()) && Enabled(Model(), e)
      modifies this
      ensures Model() == Apply(old(Model()), e) && Inv(Model())
    {
      hide Counted, Waits, Totals, Occupied, Kick, FirstFree, Highest, IsFrame, Class, ReqNo;
      StepKeeps(Model(), e);
      match e
      case Accept(ok) =>
        var abort := HandleConn(ok);
        aborted := aborted || abort;
      case Collect => this.Collect();
      case Response(i, frame) => KickWaiter(i, frame);
      case Disconnect(i) =>
        HandleDisco(i);
        main := Wiping(i);
      case Drop =>
        NotClosing(Model());
        var _ := Release(main.i);
        main := Loop;
      case PutWait(i, j) => var _ := this.PutWait(i, j);
      case Look(i, j) => var _ := this.Look(i, j);
      case FinishJob(i, j) => var _ := this.FinishJob(i, j);
      case Close(i) => CloseSlot(i);
      case _ => PerformSmall(e);
    }
  }

  lemma JobsLeft(c: Client, j: JobId)
    requires j in c.jobs
    ensures |c.jobs| >= 1 && (|c.jobs| == 1 <==> c.jobs == {j})
  {
    assert c.jobs == (c.jobs - {j}) + {j};
  }

  lemma NotClosing(s: State)
    requires Inv(s) && Enabled(s, Drop)
    ensures 1 <= s.main.i < |s.t.cs| && s.t.cs[s.main.i].refcnt > 0 && !s.t.cs[s.main.i].closing
  {
    assert Counted(s.t.cs[s.main.i], true);
  }
}
