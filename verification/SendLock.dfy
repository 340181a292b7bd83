/**
 * The send lock, sendlockl() and sendunlockl(), under any interleaving of threads that send on one
 * connection, and what the lock is for: frames reach the wire whole and one after the other.
 */
module SendLock {
  import opened Bytes
  import opened Frames

  /** spc_ostatus */
  datatype Ostatus = FREE | BUSY | WANTED

  /** Where a thread is. It sleeps in pthread_cond_wait() until it is notified and has the mutex again. */
  datatype Sender =
    | Idle
    | Asleep(msg: Stream, notified: bool)
    | Sending(msg: Stream, done: nat)

  datatype State = State(ostatus: Ostatus, senders: map<nat, Sender>, wire: Stream, log: seq<Stream>, torn: bool)
  {
    function Of(t: nat): Sender {
      if t in senders then senders[t] else Idle
    }

    function Put(t: nat, x: Sender): State {
      this.(senders := senders[t := x])
    }

    /** One turn of the loop in sendlockl(), with spc_mtx held. */
    function LockTurn(t: nat, msg: Stream): State {
      if ostatus == FREE then Put(t, Sending(msg, 0)).(ostatus := BUSY)
      else Put(t, Asleep(msg, false)).(ostatus := WANTED)
    }

    function Broadcast(): State {
      this.(senders := map t | t in senders :: Notified(senders[t]))
    }

    /** sendunlockl() */
    function Unlock(): State {
      (if ostatus == WANTED then Broadcast() else this).(ostatus := FREE)
    }
  }

  function Notified(x: Sender): Sender {
    if x.Asleep? then x.(notified := true) else x
  }

  datatype Event =
    | Lock(t: nat, msg: Stream)       // sendlock() called
    | Retry(t: nat)                   // a notified sleeper has the mutex again
    | Spurious(t: nat)                // any other broadcast on spc_cv, or a spurious wakeup
    | Emit(t: nat, n: nat)            // sendmsg() takes n bytes of what is left
    | Finish(t: nat)                  // all sent; sendunlock()
    | GiveUp(t: nat)                  // dosend() failed; sendunlock() all the same

  predicate Enabled(s: State, e: Event) {
    match e
    case Lock(t, msg) => s.Of(t).Idle? && IsFrame(msg)
    case Retry(t) => s.Of(t).Asleep? && s.Of(t).notified
    case Spurious(t) => s.Of(t).Asleep?
    case Emit(t, n) => s.Of(t).Sending? && 0 < n <= |s.Of(t).msg| - s.Of(t).done
    case Finish(t) => s.Of(t).Sending? && s.Of(t).done == |s.Of(t).msg|
    case GiveUp(t) => s.Of(t).Sending? && s.Of(t).done < |s.Of(t).msg|
  }

  function Apply(s: State, e: Event): State
    requires Enabled(s, e)
  {
    match e
    case Lock(t, msg) => s.LockTurn(t, msg)
    case Retry(t) => s.LockTurn(t, s.Of(t).msg)
    case Spurious(t) => s.Put(t, Notified(s.Of(t)))
    case Emit(t, n) =>
      var x := s.Of(t);
      s.Put(t, x.(done := x.done + n)).(wire := s.wire + x.msg[x.done..x.done + n])
    case Finish(t) => s.Put(t, Idle).Unlock().(log := s.log + [s.Of(t).msg])
    case GiveUp(t) => s.Put(t, Idle).Unlock().(torn := s.torn || s.Of(t).done > 0)
  }

  const Init := State(FREE, map[], [], [], false)

  /** What the lock status says about the threads. */
  ghost predicate Locked(ostatus: Ostatus, senders: map<nat, Sender>) {
    && (forall t, u | t in senders && u in senders && senders[t].Sending? && senders[u].Sending? :: t == u)
    && (ostatus == FREE <==> forall t | t in senders :: !senders[t].Sending?)
    && (ostatus != WANTED ==> forall t | t in senders && senders[t].Asleep? :: senders[t].notified)
  }

  /** Until a send fails half-way, the wire is whole frames and the beginning of the holder's. */
  ghost predicate Whole(s: State) {
    && (forall f | f in s.log :: IsFrame(f))
    && (forall t | t in s.senders && s.senders[t].Sending? ::
          IsFrame(s.senders[t].msg) && s.senders[t].done <= |s.senders[t].msg|)
    && (forall t | t in s.senders && s.senders[t].Asleep? :: IsFrame(s.senders[t].msg))
    && (!s.torn ==> s.ostatus == FREE ==> s.wire == Flatten(s.log))
    && (!s.torn ==> forall t | t in s.senders && s.senders[t].Sending? ::
          s.wire == Flatten(s.log) + s.senders[t].msg[..s.senders[t].done])
  }

  lemma LockTurnStep(s: State, t: nat, msg: Stream)
    requires Locked(s.ostatus, s.senders) && !s.Of(t).Sending?
    ensures Locked(s.LockTurn(t, msg).ostatus, s.LockTurn(t, msg).senders)
  {
    var s' := s.LockTurn(t, msg);
    assert t in s'.senders;
    if s.ostatus != FREE {
      var u :| u in s.senders && s.senders[u].Sending?;
      assert u in s'.senders && s'.senders[u].Sending?;
    }
  }

  lemma LockStep(s: State, e: Event)
    requires Locked(s.ostatus, s.senders) && Enabled(s, e)
    ensures Locked(Apply(s, e).ostatus, Apply(s, e).senders)
  {
    hide IsFrame;
    match e {
      case Lock(t, msg) => LockTurnStep(s, t, msg);
      case Retry(t) => LockTurnStep(s, t, s.Of(t).msg);
      case Emit(t, _) => assert t in Apply(s, e).senders;
      case Spurious(t) =>
        if s.ostatus != FREE {
          var u :| u in s.senders && s.senders[u].Sending?;
          assert u in Apply(s, e).senders && Apply(s, e).senders[u].Sending?;
        }
      case _ =>
    }
  }

  lemma LockTurnWhole(s: State, t: nat, msg: Stream)
    requires Locked(s.ostatus, s.senders) && Whole(s) && !s.Of(t).Sending? && IsFrame(msg)
    ensures Whole(s.LockTurn(t, msg))
  {
    hide IsFrame, Flatten;
    assert msg[..0] == [];
  }

  lemma EmitWhole(s: State, t: nat, n: nat)
    requires Locked(s.ostatus, s.senders) && Whole(s) && Enabled(s, Emit(t, n))
    ensures Whole(Apply(s, Emit(t, n)))
  {
    hide IsFrame, Flatten;
    var x := s.Of(t);
    var sent, more := x.msg[..x.done], x.msg[x.done..x.done + n];
    assert sent + more == x.msg[..x.done + n];
    Assoc(Flatten(s.log), sent, more);
  }

  lemma FinishWhole(s: State, t: nat)
    requires Locked(s.ostatus, s.senders) && Whole(s) && Enabled(s, Finish(t))
    ensures Whole(Apply(s, Finish(t)))
  {
    hide IsFrame, Flatten;
    var x := s.Of(t);
    FlattenAppend(s.log, [x.msg]);
    FlattenOne(x.msg);
    assert x.msg[..x.done] == x.msg;
  }

  lemma WireStep(s: State, e: Event)
    requires Locked(s.ostatus, s.senders) && Whole(s) && Enabled(s, e)
    ensures Whole(Apply(s, e))
  {
    hide IsFrame, Flatten;
    match e {
      case Lock(t, msg) => LockTurnWhole(s, t, msg);
      case Retry(t) => LockTurnWhole(s, t, s.Of(t).msg);
      case Emit(t, n) => EmitWhole(s, t, n);
      case Finish(t) => FinishWhole(s, t);
      case GiveUp(t) => assert s.Of(t).done == 0 ==> s.Of(t).msg[..0] == [];
      case Spurious(t) =>
    }
  }

  datatype Run = Run(states: seq<State>, events: seq<Event>) {
    ghost predicate Valid() {
      && |states| == |events| + 1 && states[0] == Init
      && forall i | 0 <= i < |events| :: Enabled(states[i], events[i]) && states[i + 1] == Apply(states[i], events[i])
    }
  }

  lemma {:induction false} RunKeeps(r: Run, n: nat)
    requires r.Valid() && n < |r.states|
    ensures Locked(r.states[n].ostatus, r.states[n].senders) && Whole(r.states[n])
  {
    if n > 0 {
      RunKeeps(r, n - 1);
      hide Apply, Enabled, Locked, Whole;
      LockStep(r.states[n - 1], r.events[n - 1]);
      WireStep(r.states[n - 1], r.events[n - 1]);
    }
  }

  /** At most one thread holds the sending side, and then the status is not FREE. */
  lemma OneSender(r: Run, n: nat, t: nat, u: nat)
    requires r.Valid() && n < |r.states| && r.states[n].Of(t).Sending? && r.states[n].Of(u).Sending?
    ensures t == u && r.states[n].ostatus != FREE
  {
    RunKeeps(r, n);
  }

  /** A turn at the lock, the first or a later one: the thread gets it if nobody is sending, and sleeps otherwise. */
  lemma LockEnds(r: Run, n: nat, t: nat)
    requires r.Valid() && n < |r.events|
    requires (r.events[n].Lock? || r.events[n].Retry?) && r.events[n].t == t
    ensures var s, s' := r.states[n], r.states[n + 1];
            var msg := if r.events[n].Lock? then r.events[n].msg else s.Of(t).msg;
            s'.Of(t) == if exists u :: s.Of(u).Sending? then Asleep(msg, false) else Sending(msg, 0)
  {
    hide IsFrame, Flatten;
    RunKeeps(r, n);
    var s := r.states[n];
    if s.ostatus != FREE {
      var u :| u in s.senders && s.senders[u].Sending?;
      assert s.Of(u).Sending?;
    }
  }

  /** A thread that sleeps un-notified has left the status WANTED, so the unlock to come notifies it. */
  lemma NoStrandedSleeper(r: Run, n: nat, t: nat)
    requires r.Valid() && n < |r.states| && r.states[n].Of(t).Asleep? && !r.states[n].Of(t).notified
    ensures r.states[n].ostatus == WANTED
    ensures exists u :: r.states[n].Of(u).Sending?
    ensures r.states[n].Unlock().Of(t).Asleep? && r.states[n].Unlock().Of(t).notified
  {
    RunKeeps(r, n);
    var s := r.states[n];
    var u :| u in s.senders && s.senders[u].Sending?;
    assert s.Of(u).Sending?;
  }

  /**
   * End to end: as long as no send was cut off half-way, a receiver that splits the wire gets exactly
   * the messages sent, in the order in which their senders finished.
   */
  lemma ReceiverSeesMessages(r: Run, n: nat)
    requires r.Valid() && n < |r.states| && !r.states[n].torn
    ensures SplitAll(r.states[n].wire).frames == r.states[n].log
            || exists t :: r.states[n].Of(t).Sending? && r.states[n].Of(t).done == |r.states[n].Of(t).msg|
                           && SplitAll(r.states[n].wire).frames == r.states[n].log + [r.states[n].Of(t).msg]
    ensures r.states[n].ostatus == FREE ==> SplitAll(r.states[n].wire).frames == r.states[n].log
  {
    RunKeeps(r, n);
    var s := r.states[n];
    hide Decode, FrameLen, Flatten, SplitAll;
    if s.ostatus == FREE {
      NoRest(s.log);
    } else {
      var t :| t in s.senders && s.senders[t].Sending?;
      var x := s.Of(t);
      if x.done == |x.msg| {
        assert x.msg[..x.done] == x.msg;
        FlattenAppend(s.log, [x.msg]);
        FlattenOne(x.msg);
        NoRest(s.log + [x.msg]);
      } else {
        PrefixIsPartial(x.msg, x.done);
        SplitFlatten(s.log, x.msg[..x.done]);
      }
    }
  }

  lemma NoRest(fs: seq<Stream>)
    requires forall f | f in fs :: IsFrame(f)
    ensures SplitAll(Flatten(fs)) == Split(fs, [])
  {
    SplitFlatten(fs, []);
    assert Flatten(fs) + [] == Flatten(fs);
  }

  lemma PrefixIsPartial(f: Stream, k: nat)
    requires IsFrame(f) && k < |f|
    ensures Partial(f[..k])
  {
    if k >= HDRSZ {
      assert f[..k][..WORD] == f[..WORD];
    }
  }

  /** Two sends in a row are one: how the bytes are cut does not matter. */
  lemma EmitTwice(s: State, t: nat, a: nat, b: nat)
    requires Enabled(s, Emit(t, a)) && b > 0 && s.Of(t).done + a + b <= |s.Of(t).msg|
    ensures Enabled(Apply(s, Emit(t, a)), Emit(t, b)) && Enabled(s, Emit(t, a + b))
    ensures Apply(Apply(s, Emit(t, a)), Emit(t, b)) == Apply(s, Emit(t, a + b))
  {
    var x := s.Of(t);
    var m, n := x.msg[x.done..x.done + a], x.msg[x.done + a..x.done + a + b];
    assert m + n == x.msg[x.done..x.done + (a + b)];
    Assoc(s.wire, m, n);
    var s2 := Apply(Apply(s, Emit(t, a)), Emit(t, b));
    assert s2.senders == Apply(s, Emit(t, a + b)).senders;
  }

  /** What other threads can do while t is sending. */
  predicate Elsewhere(e: Event, t: nat) {
    (e.Lock? || e.Retry? || e.Spurious?) && e.t != t
  }

  /** It makes no difference whether they do it before or after t sends. */
  lemma EmitCommutes(s: State, t: nat, n: nat, e: Event)
    requires s.ostatus != FREE && Enabled(s, Emit(t, n)) && Elsewhere(e, t)
    ensures Enabled(s, e) <==> Enabled(Apply(s, Emit(t, n)), e)
    ensures Enabled(s, e) ==>
      && Enabled(Apply(s, e), Emit(t, n)) && Apply(s, e).ostatus != FREE && Apply(s, e).Of(t) == s.Of(t)
      && Apply(Apply(s, e), Emit(t, n)) == Apply(Apply(s, Emit(t, n)), e)
  {
    hide IsFrame;
    if Enabled(s, e) {
      assert Apply(Apply(s, e), Emit(t, n)).senders == Apply(Apply(s, Emit(t, n)), e).senders;
    }
  }

  /** A stretch of a run in which t sends, in any number of portions, and others come and wait. */
  ghost predicate Stretch(s: State, t: nat, es: seq<Event>)
    decreases |es|, 0
  {
    es == [] || (
      var init, e := es[..|es| - 1], es[|es| - 1];
      Stretch(s, t, init) && (Elsewhere(e, t) || (e.Emit? && e.t == t)) && Enabled(After(s, t, init), e))
  }

  ghost function After(s: State, t: nat, es: seq<Event>): State
    requires Stretch(s, t, es)
    decreases |es|, 1
  {
    if es == [] then s else Apply(After(s, t, es[..|es| - 1]), es[|es| - 1])
  }

  /** How much t sends in it, and what the others do. */
  function Sent(es: seq<Event>): nat {
    if es == [] then 0
    else Sent(es[..|es| - 1]) + (if es[|es| - 1].Emit? then es[|es| - 1].n else 0)
  }

  function OthersIn(es: seq<Event>): seq<Event> {
    if es == [] then []
    else OthersIn(es[..|es| - 1]) + (if es[|es| - 1].Emit? then [] else [es[|es| - 1]])
  }

  /** One emission of it all, at the end. */
  ghost function SendAtOnce(s: State, t: nat, n: nat): State
    requires n == 0 || Enabled(s, Emit(t, n))
  {
    if n == 0 then s else Apply(s, Emit(t, n))
  }

  /**
   * However a send is cut into portions, and whatever other threads do between them, the outcome is that
   * of the others' steps followed by one emission of everything.
   */
  lemma {:induction false} PortionsGather(s: State, t: nat, es: seq<Event>)
    requires Stretch(s, t, es) && s.ostatus != FREE && s.Of(t).Sending? && s.Of(t).done <= |s.Of(t).msg|
    ensures Stretch(s, t, OthersIn(es)) && After(s, t, OthersIn(es)).ostatus != FREE
    ensures After(s, t, OthersIn(es)).Of(t) == s.Of(t)
    ensures Sent(es) == 0 || Enabled(After(s, t, OthersIn(es)), Emit(t, Sent(es)))
    ensures After(s, t, es) == SendAtOnce(After(s, t, OthersIn(es)), t, Sent(es))
  {
    hide Apply, Enabled;
    if es != [] {
      var init, e := es[..|es| - 1], es[|es| - 1];
      PortionsGather(s, t, init);
      var s1, n := After(s, t, OthersIn(init)), Sent(init);
      if e.Emit? {
        assert OthersIn(es) == OthersIn(init);
        EmitMore(s1, t, n, e.n);
      } else {
        OtherStep(s1, t, n, e);
        StretchMore(s, t, OthersIn(init), e);
      }
    }
  }

  lemma StretchMore(s: State, t: nat, es: seq<Event>, e: Event)
    requires Stretch(s, t, es) && Elsewhere(e, t) && Enabled(After(s, t, es), e)
    ensures Stretch(s, t, es + [e]) && After(s, t, es + [e]) == Apply(After(s, t, es), e)
  {
    hide Apply, Enabled;
    var es' := es + [e];
    assert es'[..|es'| - 1] == es && es'[|es'| - 1] == e;
  }

  lemma EmitMore(s: State, t: nat, n: nat, m: nat)
    requires s.Of(t).Sending? && (n == 0 || Enabled(s, Emit(t, n))) && Enabled(SendAtOnce(s, t, n), Emit(t, m))
    ensures Enabled(s, Emit(t, n + m)) && Apply(SendAtOnce(s, t, n), Emit(t, m)) == SendAtOnce(s, t, n + m)
  {
    if n > 0 {
      EmitTwice(s, t, n, m);
    }
  }

  lemma OtherStep(s: State, t: nat, n: nat, e: Event)
    requires s.ostatus != FREE && s.Of(t).Sending? && (n == 0 || Enabled(s, Emit(t, n)))
    requires Elsewhere(e, t) && Enabled(SendAtOnce(s, t, n), e)
    ensures Enabled(s, e) && Apply(s, e).ostatus != FREE && Apply(s, e).Of(t) == s.Of(t)
    ensures n == 0 || Enabled(Apply(s, e), Emit(t, n))
    ensures Apply(SendAtOnce(s, t, n), e) == SendAtOnce(Apply(s, e), t, n)
  {
    if n > 0 {
      EmitCommutes(s, t, n, e);
    }
  }

  // ----- the code -----

  /** The status field, where every thread is, and the wire; changed with spc_mtx held. */
  class Connection {
    var ostatus: Ostatus
    var senders: map<nat, Sender>
    var wire: Stream
    ghost var log: seq<Stream>
    ghost var torn: bool

    ghost function Model(): State
      reads this
    {
      State(ostatus, senders, wire, log, torn)
    }

    ghost predicate Valid()
      reads this
    {
      Locked(ostatus, senders) && Whole(Model())
    }

    constructor ()
      ensures Model() == Init && Valid()
    {
      ostatus, senders, wire, log, torn := FREE, map[], [], [], false;
    }

    /**
     * One turn of the loop in sendlockl(): the thread has to wait exactly if another one is sending,
     * and if not it is the only one that is.
     */
    method LockTurn(t: nat, msg: Stream) returns (wait: bool)
      requires Valid() && !Model().Of(t).Sending? && IsFrame(msg)
      modifies this`ostatus, this`senders
      ensures Model() == old(Model()).LockTurn(t, msg) && Valid()
      ensures wait <==> exists u :: u != t && Model().Of(u).Sending?
      ensures wait <==> !Model().Of(t).Sending?
    {
      hide IsFrame, Flatten;
      LockTurnStep(Model(), t, msg);
      LockTurnWhole(Model(), t, msg);
      wait := ostatus != FREE;
      if wait {
        ghost var u :| u in senders && senders[u].Sending?;
        senders := senders[t := Asleep(msg, false)];
        ostatus := WANTED;
        assert u != t && Model().Of(u).Sending?;
      } else {
        senders := senders[t := Sending(msg, 0)];
        ostatus := BUSY;
      }
    }

    /** sendunlockl() by the holder, who is done: the lock is free and nobody sleeps un-notified. */
    method Unlock(t: nat)
      requires Locked(ostatus, senders) && Model().Of(t).Sending?
      modifies this`ostatus, this`senders
      ensures Model() == old(Model()).Put(t, Idle).Unlock()
      ensures ostatus == FREE && forall u :: !Model().Of(u).Sending?
      ensures forall u | Model().Of(u).Asleep? :: Model().Of(u).notified
    {
      senders := senders[t := Idle];
      if ostatus == WANTED {
        senders := map u | u in senders :: Notified(senders[u]);
      }
      ostatus := FREE;
    }

    /** Any event carried out by the code is the step of the transition system, and keeps the invariant. */
    method Perform(e: Event)
      requires Valid() && Enabled(Model(), e)
      modifies this
      ensures Model() == Apply(old(Model()), e) && Valid()
    {
      hide IsFrame, Flatten, Locked, Whole;
      LockStep(Model(), e);
      WireStep(Model(), e);
      match e
      case Lock(t, msg) => var _ := LockTurn(t, msg);
      case Retry(t) =>
        AsleepHasFrame(Model(), t);
        var _ := LockTurn(t, senders[t].msg);
      case Spurious(t) => senders := senders[t := Notified(senders[t])];
      case Emit(t, n) =>
        var x := senders[t];
        wire := wire + x.msg[x.done..x.done + n];
        senders := senders[t := x.(done := x.done + n)];
      case Finish(t) =>
        log := log + [senders[t].msg];
        Unlock(t);
      case GiveUp(t) =>
        torn := torn || senders[t].done > 0;
        Unlock(t);
    }
  }

  lemma AsleepHasFrame(s: State, t: nat)
    requires Whole(s) && s.Of(t).Asleep?
    ensures t in s.senders && IsFrame(s.senders[t].msg)
  {
  }
}
