/**
 * Sender and receiver together: what dosend() puts on the wire under the send lock is what the
 * receiver's main loop dispatches, however writes and reads are cut.
 */
module RoundTrip {
  import Buffers
  import opened Bytes
  import opened Clients
  import opened Frames
  import FrameReader
  import opened FrameSender
  import opened Options
  import SendLock

  /** Fewer bytes give fewer frames, but the same ones. */
  lemma {:induction false} SplitPrefix(s: Stream, d: Stream)
    ensures SplitAll(s).frames <= SplitAll(s + d).frames
    decreases |s|
  {
    hide Decode, FrameLen;
    if !Partial(s) && !Malformed(s) {
      FrontFrame(s, d);
      SplitPrefix(s[FrameLen(s)..], d);
    }
  }

  lemma SplitPartOfFrame(f: Stream, p: Stream)
    requires IsFrame(f) && p <= f
    ensures SplitAll(p).frames == if p == f then [f] else []
  {
    hide Decode, FrameLen;
    if p == f {
      SplitFrame(f);
    } else {
      assert p == f[..|p|];
      SendLock.PrefixIsPartial(f, |p|);
    }
  }

  /**
   * One message: header and buffers are sent by dosend() and whatever reached the wire is read by the
   * main loop of the other end. The loop dispatches the message, and nothing else, as soon as it has
   * consumed all of it; and it can have done that only if the send succeeded.
   */
  method SendAndReceive(ch: Channel, rd: FrameReader.Reader, bufs: seq<Stream>,
                        reqno: nat, cls: nat, typ: nat, arg: nat,
                        plan: seq<nat>, envs: seq<FrameReader.Environment>)
    returns (error: int, frames: seq<Stream>, ghost sent: Stream, ghost consumed: Stream)
    requires HDRSZ + |Flatten(bufs)| < TWO64 && reqno < TWO64 && cls < 0x1_0000 && typ < 0x1_0000 && arg < 0x1_0000_0000
    requires rd.Ready() && rd.Got() == [] && rd.Accounted()
    modifies ch, rd
    ensures |sent| >= HDRSZ && ReqNo(sent) == reqno && Class(sent) == cls && Type(sent) == typ && Arg(sent) == arg
    ensures IsFrame(sent) && Body(sent) == Flatten(bufs)
    ensures consumed <= sent && frames == if consumed == sent then [sent] else []
    ensures consumed == sent ==> error == 0
    ensures error == 0 ==> ch.wire == old(ch.wire) + sent
    ensures rd.respwait == Buffers.AnsweredByAll(old(rd.respwait), frames)
  {
    hide Decode, FrameLen, ReqNo, Class, Type, Arg, Flatten, SplitAll, MakeHeader;
    var len := HDRSZ + |Flatten(bufs)|;
    var h := MakeHeader(len, reqno, cls, typ, arg);
    sent := h + Flatten(bufs);
    VectorIsFrame(bufs, reqno, cls, typ, arg);
    HeaderReadsBack(len, reqno, cls, typ, arg, Flatten(bufs));
    FieldsOf(sent);
    var before := |ch.wire|;
    error := DoSend(ch, [h] + bufs);
    assert ch.wire[before..] <= sent && (error != 0 ==> ch.wire[before..] != sent);
    var sock := new FrameReader.Socket(ch.wire[before..], plan);
    var alive;
    frames, alive, consumed := rd.Pump(sock, envs);
    SplitPartOfFrame(sent, consumed);
  }

  lemma FieldsOf(f: Stream)
    requires |f| >= HDRSZ
    ensures Class(f) == Decode(f[16..18]) && Type(f) == Decode(f[18..20]) && Arg(f) == Decode(f[20..24])
      && Body(f) == f[HDRSZ..]
  {
  }

  /** Two responses of one byte to request 7, while its waiter sleeps: one buffer is lost. */
  lemma LostResponse()
    ensures var f := MakeHeader(HDRSZ + 1, 7, RESP, 0, 0) + [0];
            IsFrame(f) && Buffers.Overwritten([Waiter(0, 7, None, Asleep)], [f, f]) == 1
  {
    hide Decode, FrameLen, ReqNo, Class, MakeHeader, Buffers.Overwritten;
    var f := MakeHeader(HDRSZ + 1, 7, RESP, 0, 0) + [0];
    HeaderReadsBack(HDRSZ + 1, 7, RESP, 0, 0, [0]);
    FieldsOf(f);
    Buffers.TwoResponses(f);
  }

  // ----- under the lock -----

  /** The state after thread t has put `k` bytes on the wire and unlocked. */
  ghost function AfterSend(s: SendLock.State, t: nat, k: nat): SendLock.State
    requires s.Of(t).Sending? && s.Of(t).done == 0 && s.Of(t).msg != [] && k <= |s.Of(t).msg|
  {
    var s1 := if k == 0 then s else SendLock.Apply(s, SendLock.Emit(t, k));
    SendLock.Apply(s1, if k == |s.Of(t).msg| then SendLock.Finish(t) else SendLock.GiveUp(t))
  }

  /**
   * dosend() by the thread that has the lock, and sendunlock(): steps of the lock's transition system,
   * an emission of what went out and then the end, in success exactly if everything did.
   */
  method SendLocked(conn: SendLock.Connection, ch: Channel, t: nat, iov: seq<Stream>) returns (error: int, ghost k: nat)
    requires conn.Valid() && conn.wire == ch.wire && conn.Model().Of(t) == SendLock.Sending(Flatten(iov), 0)
    requires IsFrame(Flatten(iov))
    modifies conn, ch
    ensures conn.Valid() && conn.wire == ch.wire && k <= |Flatten(iov)|
    ensures conn.Model() == AfterSend(old(conn.Model()), t, k)
    ensures error == 0 <==> k == |Flatten(iov)|
  {
    hide FrameLen, Flatten;
    ghost var msg := Flatten(iov);
    error := DoSend(ch, iov);
    var n := |ch.wire| - |conn.wire|;
    k := n;
    assert ch.wire == conn.wire + msg[..n];
    if n > 0 {
      conn.Perform(SendLock.Emit(t, n));
    }
    assert conn.wire == ch.wire;
    conn.Perform(if error == 0 then SendLock.Finish(t) else SendLock.GiveUp(t));
  }

  /**
   * The same when others come and wait between the portions of the send: what SendLocked() does at once is
   * what any stretch of steps with the same bytes and the end come to, after the steps of the others.
   */
  lemma InterleavedSend(s: SendLock.State, t: nat, es: seq<SendLock.Event>)
    requires SendLock.Stretch(s, t, es) && s.ostatus != SendLock.FREE
    requires s.Of(t).Sending? && s.Of(t).done == 0 && s.Of(t).msg != []
    ensures var k, msg, s1 := SendLock.Sent(es), s.Of(t).msg, SendLock.After(s, t, es);
            var end := if k == |msg| then SendLock.Finish(t) else SendLock.GiveUp(t);
            && SendLock.Stretch(s, t, SendLock.OthersIn(es))
            && SendLock.After(s, t, SendLock.OthersIn(es)).Of(t) == s.Of(t)
            && k <= |msg| && SendLock.Enabled(s1, end)
            && SendLock.Apply(s1, end) == AfterSend(SendLock.After(s, t, SendLock.OthersIn(es)), t, k)
  {
    hide SendLock.Stretch, SendLock.After, SendLock.OthersIn, SendLock.Sent;
    SendLock.PortionsGather(s, t, es);
  }

  /**
   * A whole run of senders on one connection, and the main loop of the other end on its wire: what is
   * dispatched is a beginning of the messages sent, in the order in which they were sent, and all of
   * them when the wire is consumed and nobody is sending.
   */
  method ReceiveRun(ghost r: SendLock.Run, ghost n: nat, wire: Stream, rd: FrameReader.Reader, plan: seq<nat>,
                    envs: seq<FrameReader.Environment>) returns (frames: seq<Stream>, ghost consumed: Stream)
    requires r.Valid() && n < |r.states| && wire == r.states[n].wire && !r.states[n].torn
    requires rd.Ready() && rd.Got() == [] && rd.Accounted()
    modifies rd
    ensures consumed <= wire
    ensures frames <= r.states[n].log
            || exists t :: r.states[n].Of(t).Sending? && frames <= r.states[n].log + [r.states[n].Of(t).msg]
    ensures consumed == wire && r.states[n].ostatus == SendLock.FREE ==> frames == r.states[n].log
    ensures rd.respwait == Buffers.AnsweredByAll(old(rd.respwait), frames)
  {
    hide SplitAll;
    SendLock.ReceiverSeesMessages(r, n);
    var sock := new FrameReader.Socket(wire, plan);
    var alive;
    frames, alive, consumed := rd.Pump(sock, envs);
    SplitPrefix(consumed, sock.incoming);
  }
}
