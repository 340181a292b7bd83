/**
 * The receiving side of a connection: readframe() on a non-blocking socket that delivers what it
 * likes, and the dispatch of complete frames with the buffer handling of every branch.
 */
module FrameReader {
  import opened Buffers
  import opened Bytes
  import opened Clients
  import opened Frames
  import opened Options

  datatype ReadResult = Chunk(bytes: Stream) | Eof | Again | Failed

  /**
   * The peer's bytes that have not been read yet. A read takes any non-empty number of them, up to
   * what is asked for, or none: how many is not known to the caller.
   */
  class Socket {
    var incoming: Stream
    var plan: seq<nat>           // how much each coming read delivers; then nothing
    var broken: bool             // the end of the stream or an error has been reported
    ghost var asked: nat         // how often it has been read

    constructor (incoming: Stream, plan: seq<nat>)
      ensures this.incoming == incoming && !broken && asked == 0
    {
      this.incoming, this.plan, broken, asked := incoming, plan, false, 0;
    }

    method Read(max: nat) returns (r: ReadResult)
      requires max > 0
      modifies this
      ensures r.Chunk? ==> 0 < |r.bytes| <= max && old(incoming) == r.bytes + incoming
      ensures !r.Chunk? ==> incoming == old(incoming)
      ensures broken == (old(broken) || r.Eof? || r.Failed?) && asked == old(asked) + 1
    {
      asked := asked + 1;
      if plan == [] {
        broken := true;
        return Eof;
      }
      var n := plan[0];
      plan := plan[1..];
      if n > max {
        n := max;
      }
      if n > |incoming| {
        n := |incoming|;
      }
      if n == 0 {
        return Again;
      }
      r := Chunk(incoming[..n]);
      incoming := incoming[n..];
    }
  }

  datatype Status = Disconnect | More | Complete

  // ----- what a frame is dispatched to -----

  const HANDSHAKE: nat := 0
  const SYSCALL: nat := 1
  const PREFORK: nat := 7

  const GUEST: nat := 0
  const FORK: nat := 2
  const EXEC: nat := 3

  /** sizeof(struct handshake_fork) */
  const FORKSZ: nat := 20

  const TRYAGAIN: nat := 1
  const AUTH: nat := 2
  const INVALID_PREFORK: nat := 3
  const RFORK_FAILED: nat := 4
  const INEXEC: nat := 5
  const NOMEM: nat := 6
  const MALFORMED: nat := 7

  /** What the world answers while a frame is read and dispatched. */
  datatype Environment = Environment(
    room: bool,         // malloc() has memory for the body
    rfork: bool,        // lwproc_rfork() succeeds
    token: bool,        // the fork's authentication is on the prefork list
    cancel: bool,       // rf_cancel
    memory: bool,       // malloc() has memory for a prefork record
    failures: seq<int>) // the values of nworker seen as malloc() of the work fails, before it succeeds

  /** A response by the main thread; 0 is success. */
  datatype Reply = Reply(reqno: nat, error: nat)

  /** The fields of `struct spclient` that the main thread uses, the work list, and what was sent. */
  class Reader {
    var hdr: Stream              // spc_hdr
    var off: nat                 // spc_off
    var hasBuf: bool             // spc_buf is not null
    var buf: Stream              // the bytes it points to
    var state: Phase             // spc_state
    var inexec: bool             // spc_inexec
    var nextreq: nat             // spc_nextreq
    var respwait: seq<Waiter>    // spc_respwait
    var work: seq<Stream>        // header and data of every piece of work scheduled
    var replies: seq<Reply>
    var shut: bool               // shutdown() of the connection
    ghost var owners: seq<Owner> // one for every buffer allocated, in that order

    constructor ()
      ensures Ready() && Got() == [] && Accounted()
      ensures state == NEW && !inexec && respwait == [] && work == [] && replies == [] && !shut && owners == []
    {
      hdr := Encode(0, HDRSZ);
      off, hasBuf, buf := 0, false, [];
      state, inexec, nextreq, respwait, work, replies, shut := NEW, false, 0, [], [], [], false;
      owners := [];
    }

    /**
     * Every buffer has the owner on record: the reader has the one in spc_buf, the latest; each waiter
     * that holds an answer has one; the others are freed, with a worker, or lost.
     */
    ghost predicate Accounted()
      reads this`hasBuf, this`owners, this`respwait
    {
      Latest(owners, hasBuf) && Handed(owners, respwait)
    }

    /** What has arrived of the current frame. */
    function Got(): (g: Stream)
      reads this`hdr, this`off, this`hasBuf, this`buf
      requires |hdr| == HDRSZ && (off > HDRSZ ==> off - HDRSZ <= |buf|)
    {
      if off <= HDRSZ then hdr[..off] else hdr + buf[..off - HDRSZ]
    }

    /** Between two calls: in the header, or in a body that is not complete. */
    predicate Ready()
      reads this`hdr, this`off, this`hasBuf, this`buf
    {
      && |hdr| == HDRSZ
      && (off < HDRSZ ==> !hasBuf)
      && (off >= HDRSZ ==> hasBuf && FrameLen(hdr) > off && |buf| == FrameLen(hdr) - HDRSZ)
    }

    /** A frame is complete and waits to be dispatched. */
    predicate Done()
      reads this`hdr, this`off, this`hasBuf, this`buf
    {
      && |hdr| == HDRSZ && off >= HDRSZ && FrameLen(hdr) == off
      && hasBuf == (off > HDRSZ) && (hasBuf ==> |buf| == off - HDRSZ)
    }

    /** The header part; `room` says that malloc() has memory for the body. */
    method ReadHeader(sock: Socket, room: bool) returns (st: Status, inBody: bool, ghost d: Stream)
      requires Ready() && off < HDRSZ && Accounted()
      modifies this`hdr, this`off, this`hasBuf, this`buf, this`owners, sock
      ensures |hdr| == HDRSZ && off <= HDRSZ && Accounted()
      ensures old(sock.incoming) == d + sock.incoming && Got() == old(Got()) + d && sock.asked > old(sock.asked)
      ensures st == More && !inBody ==> Ready() && off < HDRSZ
      ensures st == Complete ==> Done() && !inBody
      ensures inBody ==> st == More && Ready() && off == HDRSZ && room
      ensures st == Disconnect ==> !inBody && (off == HDRSZ ==> Malformed(hdr) || (!room && FrameLen(hdr) > HDRSZ))
      ensures sock.broken == (old(sock.broken) || (st == Disconnect && off < HDRSZ))
      ensures (st == Disconnect ==> !hasBuf) && LostIn(owners) == old(LostIn(owners))
    {
      hide Decode, Handed, LostIn;
      var r := sock.Read(HDRSZ - off);
      if !r.Chunk? {
        return if r.Again? then More else Disconnect, false, [];
      }
      var x := r.bytes;
      d := x;
      hdr := hdr[..off] + x + hdr[off + |x|..];
      off := off + |x|;
      assert hdr[..off] == old(hdr[..off]) + d;
      if off < HDRSZ {
        return More, false, d;
      }
      var framelen := FrameLen(hdr);
      if framelen < HDRSZ {
        return Disconnect, false, d;
      }
      if framelen == HDRSZ {
        return Complete, false, d;
      }
      if !room {
        return Disconnect, false, d;
      }
      hasBuf, buf := true, Zeroed(framelen - HDRSZ);
      NewBuffer(owners, respwait);
      owners := owners + [Reading];
      return More, true, d;
    }

    /** The body part. */
    method ReadBody(sock: Socket) returns (st: Status, ghost d: Stream)
      requires Ready() && off >= HDRSZ && Accounted()
      modifies this`off, this`buf, sock
      ensures off - HDRSZ <= |buf| && off >= HDRSZ && Accounted()
      ensures old(sock.incoming) == d + sock.incoming && Got() == old(Got()) + d && sock.asked > old(sock.asked)
      ensures st == More ==> Ready()
      ensures st == Complete ==> Done()
      ensures st == Disconnect ==> Ready()
      ensures sock.broken == (old(sock.broken) || st == Disconnect)
    {
      hide Decode;
      var left := FrameLen(hdr) - off;
      var r := sock.Read(left);
      if !r.Chunk? {
        return if r.Again? then More else Disconnect, [];
      }
      var x, k := r.bytes, off - HDRSZ;
      d := x;
      buf := buf[..k] + x + buf[k + |x|..];
      off := off + |x|;
      assert buf[..k + |x|] == old(buf)[..k] + x;
      assert Got() == old(Got()) + d;
      return if |x| == left then Complete else More, d;
    }

    /** readframe(): one call reads at most the rest of the header and then some of the body. */
    method ReadFrame(sock: Socket, room: bool) returns (st: Status, ghost d: Stream)
      requires Ready() && Accounted()
      modifies this`hdr, this`off, this`hasBuf, this`buf, this`owners, sock
      ensures |hdr| == HDRSZ && old(sock.incoming) == d + sock.incoming && Accounted()
      ensures sock.asked >= old(sock.asked) + (if st == More && old(off) < HDRSZ <= off then 2 else 1)
      ensures st == More ==> Ready() && Got() == old(Got()) + d
      ensures st == Complete ==> Done() && Got() == old(Got()) + d
      ensures st == Disconnect ==> Partial(old(Got()) + d) || Malformed(old(Got()) + d)
      ensures st == Disconnect ==> sock.broken || Malformed(old(Got()) + d) || !room
      ensures sock.broken && !old(sock.broken) ==> st == Disconnect
      ensures st == Disconnect && !old(sock.broken) ==> (hasBuf <==> sock.broken && |old(Got()) + d| >= HDRSZ)
      ensures LostIn(owners) == old(LostIn(owners))
    {
      hide Decode, Reader.Accounted, LostIn;
      d := [];
      if off < HDRSZ {
        var inBody;
        st, inBody, d := ReadHeader(sock, room);
        if !inBody {
          if st == Disconnect {
            assert off == HDRSZ ==> hdr[..HDRSZ] == hdr;
            HeaderOnly(Got(), hdr);
            assert off == HDRSZ ==> Got() == hdr;
            assert Got() == old(Got()) + d;
          }
          return;
        }
      }
      ghost var d';
      st, d' := ReadBody(sock);
      d := d + d';
      assert Got() == old(Got()) + d;
      if st == Disconnect {
        StillPartial(Got(), hdr);
      }
    }

    // ----- dispatch -----

    /** The frame is dealt with: the reader is at offset 0 and has no buffer. */
    ghost predicate Clear()
      reads this`hdr, this`off, this`hasBuf, this`buf, this`owners, this`respwait
    {
      Ready() && off == 0 && !hasBuf && Accounted()
    }

    /** The complete frame in the reader. */
    function Frame(): (f: Stream)
      reads this`hdr, this`off, this`hasBuf, this`buf
      requires Done()
    {
      if hasBuf then hdr + buf else hdr
    }

    /** spcresetbuf(): somebody else has the buffer now. */
    method ResetBuf(ghost owner: Owner)
      requires |hdr| == HDRSZ && Latest(owners, hasBuf) && owner != Reading
      modifies this`off, this`hasBuf, this`buf, this`owners
      ensures Ready() && off == 0 && !hasBuf && Latest(owners, false)
      ensures owners == Passed(old(owners), old(hasBuf), owner)
    {
      if hasBuf {
        owners := owners[|owners| - 1 := owner];
      }
      off, hasBuf, buf := 0, false, [];
    }

    /** spcfreebuf() */
    method FreeBuf()
      requires |hdr| == HDRSZ && Accounted()
      modifies this`off, this`hasBuf, this`buf, this`owners
      ensures Clear()
      ensures owners == Passed(old(owners), old(hasBuf), Freed) && LostIn(owners) == old(LostIn(owners))
    {
      hide Handed, LostIn;
      PassedKeeps(owners, hasBuf, Freed, respwait);
      ResetBuf(Freed);
    }

    method SendError(error: nat)
      requires |hdr| == HDRSZ
      modifies this`replies
      ensures replies == old(replies) + [Reply(ReqNo(hdr), error)]
    {
      replies := replies + [Reply(ReqNo(hdr), error)];
    }

    /** kickwaiter(). The answer that the waiter held before, if it has not looked, is lost. */
    method KickWaiter()
      requires Done() && Accounted()
      modifies this`off, this`hasBuf, this`buf, this`owners, this`respwait
      ensures Clear()
      ensures respwait == Kick(old(respwait), ReqNo(hdr), old(Body(Frame())))
      ensures owners == Delivered(old(owners), old(hasBuf), old(respwait), ReqNo(hdr))
      ensures LostIn(owners) == old(LostIn(owners)) + (if Taken(old(respwait), ReqNo(hdr)) then 1 else 0)
    {
      hide Decode, Kick, ReqNo, Handed, LostIn, Moved, Latest;
      var reqno := ReqNo(hdr);
      var k := FindWaiter(respwait, reqno);
      ghost var body := Body(Frame());
      assert body == if hasBuf then buf else [];
      KickIs(respwait, reqno, body, k);
      OneFirst(respwait, reqno, k);
      if k == |respwait| {
        FreeBuf();
        return;
      }
      var w := Wake(respwait[k]).(got := Some(if hasBuf then buf else []));
      assert Holds(w) <==> hasBuf;
      KickKeeps(owners, hasBuf, respwait, k, w);
      owners := Moved(owners, w.job, Lost);
      respwait := respwait[k := w];
      ResetBuf(WithWaiter(w.job));
    }

    /**
     * schedulework() until the work is queued. It gives up when malloc() fails and no worker exists;
     * `retries` is never incremented, so that is the only way.
     */
    method ScheduleWork(failures: seq<int>) returns (queued: bool)
      requires Done() && Accounted()
      modifies this`off, this`hasBuf, this`buf, this`owners, this`work, this`replies
      ensures Clear() && (queued <==> 0 !in failures)
      ensures owners == Passed(old(owners), old(hasBuf), if queued then WithWorker else Freed)
      ensures work == if queued then old(work) + [old(Frame())] else old(work)
      ensures replies == if queued then old(replies) else old(replies) + [Reply(ReqNo(hdr), TRYAGAIN)]
      ensures LostIn(owners) == old(LostIn(owners))
    {
      hide Decode, Handed, LostIn;
      var retries := 0;
      for i := 0 to |failures|
        invariant 0 !in failures[..i] && retries == 0
        invariant unchanged(this)
      {
        if failures[i] == 0 || retries > 10 {
          SendError(TRYAGAIN);
          FreeBuf();
          return false;
        }
        assert failures[..i + 1] == failures[..i] + [failures[i]];
      }
      work := work + [if hasBuf then hdr + buf else hdr];
      PassedKeeps(owners, hasBuf, WithWorker, respwait);
      ResetBuf(WithWorker);
      return true;
    }

    /** The handshake of a forked client. */
    method IntroduceFork(env: Environment) returns (welcome: bool)
      requires Done() && Accounted()
      modifies this`off, this`hasBuf, this`buf, this`owners, this`replies, this`shut
      ensures Clear() && owners == Passed(old(owners), old(hasBuf), Freed)
      ensures LostIn(owners) == old(LostIn(owners))
      ensures welcome <==> old(off) - HDRSZ == FORKSZ && env.token && !env.cancel && env.rfork
      ensures Reacts(old(replies), replies, old(shut), shut, ReqNo(hdr), ForkVerdict(old(off) - HDRSZ, env))
    {
      hide Decode, FrameLen, ReqNo, Reader.Clear, Reader.Accounted, Passed, LostIn;
      if off - HDRSZ != FORKSZ {
        SendError(MALFORMED);
        shut := true;
        FreeBuf();
        return false;
      }
      FreeBuf();
      if !env.token {
        SendError(INVALID_PREFORK);
        shut := true;
        return false;
      }
      if env.cancel {
        shut := true;
        return false;
      }
      if !env.rfork {
        SendError(RFORK_FAILED);
        shut := true;
        return false;
      }
      replies := replies + [Reply(ReqNo(hdr), 0)];
      return true;
    }

    /** handlereq() on a client that has not introduced itself. */
    method Introduce(env: Environment)
      requires Done() && Accounted() && state == NEW
      modifies this
      ensures Clear() && hdr == old(hdr) && owners == Passed(old(owners), old(hasBuf), Freed)
      ensures work == old(work) && respwait == old(respwait) && inexec == old(inexec)
      ensures LostIn(owners) == old(LostIn(owners))
      ensures state == if Welcome(old(Frame()), env) then RUNNING else NEW
      ensures Reacts(old(replies), replies, old(shut), shut, ReqNo(hdr), NewVerdict(old(Frame()), env))
    {
      hide Decode, FrameLen, ReqNo, Type, Arg, Reader.Clear, Reader.Accounted, Passed, LostIn;
      HeaderInFront(Frame(), hdr);
      if Type(hdr) != HANDSHAKE {
        SendError(AUTH);
        shut := true;
        FreeBuf();
        return;
      }
      if Arg(hdr) == GUEST {
        if !env.rfork {
          shut := true;
        }
        FreeBuf();
        if !env.rfork {
          return;
        }
        replies := replies + [Reply(ReqNo(hdr), 0)];
      } else if Arg(hdr) == FORK {
        var welcome := IntroduceFork(env);
        if !welcome {
          return;
        }
      } else {
        SendError(AUTH);
        shut := true;
        FreeBuf();
        return;
      }
      state := RUNNING;
    }

    /** handlereq() on a prefork request. */
    method Prefork(env: Environment)
      requires |hdr| == HDRSZ && Accounted()
      modifies this`off, this`hasBuf, this`buf, this`owners, this`replies, this`shut
      ensures Clear() && owners == Passed(old(owners), old(hasBuf), Freed)
      ensures Reacts(old(replies), replies, old(shut), shut, ReqNo(hdr), PreforkVerdict(inexec, env))
      ensures LostIn(owners) == old(LostIn(owners))
    {
      hide Decode, ReqNo, Reader.Clear, Reader.Accounted, Passed, LostIn;
      FreeBuf();
      if inexec {
        SendError(INEXEC);
        shut := true;
        return;
      }
      if !env.memory {
        SendError(NOMEM);
        return;
      }
      if !env.rfork {
        SendError(RFORK_FAILED);
        return;
      }
      replies := replies + [Reply(ReqNo(hdr), 0)];
    }

    /**
     * handlereq(): on every branch the reader ends clear, with its buffer freed once or with the one
     * worker that has the request; and a request that no worker has is answered once, by its own
     * number, or the connection is shut down.
     */
    method HandleReq(env: Environment)
      requires Done() && Accounted()
      modifies this
      ensures Clear() && hdr == old(hdr) && respwait == old(respwait) && LostIn(owners) == old(LostIn(owners))
      ensures var w := ForWorker(old(Frame()), old(state), old(inexec), env);
        && owners == Passed(old(owners), old(hasBuf), if w then WithWorker else Freed)
        && work == (if w then old(work) + [old(Frame())] else old(work))
        && Reacts(old(replies), replies, old(shut), shut, ReqNo(hdr),
                  if w then Verdict(None, false) else Judged(old(Frame()), old(state), old(inexec), env))
      ensures state == if old(state) == NEW && Welcome(old(Frame()), env) then RUNNING else old(state)
      ensures inexec == (old(inexec) || (old(state) != NEW && Type(hdr) == HANDSHAKE && Arg(hdr) == EXEC))
    {
      hide Decode, FrameLen, ReqNo, Type, Arg, Passed, Welcome, LostIn, NewVerdict, PreforkVerdict;
      hide Reader.Clear, Reader.Accounted;
      HeaderInFront(Frame(), hdr);
      if state == NEW {
        Introduce(env);
        return;
      }
      if Type(hdr) == PREFORK {
        Prefork(env);
        return;
      }
      if Type(hdr) == HANDSHAKE {
        if Arg(hdr) != EXEC {
          SendError(MALFORMED);
          shut := true;
          FreeBuf();
          return;
        }
        if inexec {
          SendError(INEXEC);
          shut := true;
          FreeBuf();
          return;
        }
        inexec := true;
        var _ := ScheduleWork(env.failures);
        return;
      }
      if Type(hdr) != SYSCALL {
        SendError(MALFORMED);
        FreeBuf();
        return;
      }
      var _ := ScheduleWork(env.failures);
    }

    /** The main loop's switch on the class of a complete frame. */
    method Dispatch(env: Environment)
      requires Done() && Accounted()
      modifies this
      ensures Clear() && Got() == []
      ensures respwait == AnsweredBy(old(respwait), old(Frame()))
      ensures var f, req := old(Frame()), Class(old(hdr)) == REQ;
        && work == (if req && ForWorker(f, old(state), old(inexec), env) then old(work) + [f] else old(work))
        && owners == (if Class(old(hdr)) == RESP then Delivered(old(owners), old(hasBuf), old(respwait), ReqNo(f))
                      else if req && ForWorker(f, old(state), old(inexec), env)
                      then Passed(old(owners), old(hasBuf), WithWorker)
                      else Passed(old(owners), old(hasBuf), Freed))
        && LostIn(owners) == old(LostIn(owners)) + (if Overwrites(old(respwait), f) then 1 else 0)
        && Reacts(old(replies), replies, old(shut), shut, ReqNo(f),
                  if Class(old(hdr)) == RESP || (req && ForWorker(f, old(state), old(inexec), env))
                  then Verdict(None, false)
                  else if req then Judged(f, old(state), old(inexec), env)
                  else Verdict(Some(MALFORMED), false))
        && state == (if req && old(state) == NEW && Welcome(f, env) then RUNNING else old(state))
        && inexec == (old(inexec) || (req && old(state) != NEW && Type(f) == HANDSHAKE && Arg(f) == EXEC))
    {
      hide Decode, FrameLen, ReqNo, Class, Type, Arg, Kick, ForWorker, Welcome, Judged, Reader.Accounted, LostIn, Taken,
        Delivered, Passed;
      HeaderInFront(Frame(), hdr);
      if Class(hdr) == RESP {
        KickWaiter();
      } else if Class(hdr) == REQ {
        HandleReq(env);
      } else {
        SendError(MALFORMED);
        FreeBuf();
      }
    }

    /** One round of the main loop on this connection: read and, if a frame is complete, dispatch it. */
    method Round(sock: Socket, env: Environment) returns (st: Status, frame: Stream, ghost d: Stream)
      requires Ready() && Accounted()
      modifies this, sock
      ensures |hdr| == HDRSZ && old(sock.incoming) == d + sock.incoming && Accounted()
      ensures sock.asked > old(sock.asked)
      ensures st == Complete ==> Ready() && Got() == [] && frame == old(Got()) + d && IsFrame(frame)
                                 && respwait == AnsweredBy(old(respwait), frame)
                                 && (work == old(work) || work == old(work) + [frame])
      ensures st == More ==> Ready() && Got() == old(Got()) + d && Partial(Got())
      ensures st != Complete ==> respwait == old(respwait) && work == old(work) && state == old(state)
      ensures st == Complete ==>
        state == if Class(frame) == REQ && old(state) == NEW && Welcome(frame, env) then RUNNING else old(state)
      ensures st == Disconnect ==> Partial(old(Got()) + d) || Malformed(old(Got()) + d)
      ensures st == Disconnect ==> sock.broken || Malformed(old(Got()) + d) || !env.room
      ensures sock.broken && !old(sock.broken) ==> st == Disconnect
      ensures st == Disconnect && !old(sock.broken) ==> (hasBuf <==> sock.broken && |old(Got()) + d| >= HDRSZ)
      ensures LostIn(owners) == old(LostIn(owners))
                                + (if st == Complete && Overwrites(old(respwait), frame) then 1 else 0)
    {
      hide Decode, FrameLen, Partial, Malformed, AnsweredBy, ForWorker, Reader.Accounted, LostIn, Overwrites,
        Delivered, Passed;
      frame := [];
      st, d := ReadFrame(sock, env.room);
      if st == Complete {
        frame := if hasBuf then hdr + buf else hdr;
        CompleteIsFrame(frame, hdr, off);
        HeaderInFront(frame, hdr);
        Dispatch(env);
      } else if st == More {
        StillReady();
      }
    }

    /** The main loop on one connection, until it disconnects or `envs` are used up. */
    method Pump(sock: Socket, envs: seq<Environment>) returns (frames: seq<Stream>, alive: bool, ghost consumed: Stream)
      requires Ready() && Got() == [] && Accounted() && !sock.broken
      modifies this, sock
      ensures old(sock.incoming) == consumed + sock.incoming && Accounted() && |hdr| == HDRSZ
      ensures frames == SplitAll(consumed).frames
      ensures respwait == AnsweredByAll(old(respwait), frames)
      ensures Extends(old(work), work, frames) && (old(state) != NEW ==> state == old(state))
      ensures LostIn(owners) == old(LostIn(owners)) + Overwritten(old(respwait), frames)
      ensures !alive ==> (hasBuf <==> sock.broken && |SplitAll(consumed).rest| >= HDRSZ)
      ensures alive ==> Ready() && Got() == SplitAll(consumed).rest && !sock.broken
      ensures alive ==> sock.asked >= old(sock.asked) + |envs|
      ensures !alive ==>
        || sock.broken || Malformed(SplitAll(consumed).rest)
        || exists i | 0 <= i < |envs| :: !envs[i].room
    {
      hide Decode, FrameLen, Partial, Malformed, IsFrame, SplitAll, AnsweredBy, AnsweredByAll, Extends,
        Reader.Accounted, LostIn, Overwrites, Overwritten;
      frames, consumed, alive := [], [], true;
      NothingSplits();
      NothingDone(respwait, work);
      var i := 0;
      while i < |envs| && alive
        invariant old(sock.incoming) == consumed + sock.incoming && Accounted()
        invariant |hdr| == HDRSZ && frames == SplitAll(consumed).frames
        invariant i <= |envs| && sock.asked >= old(sock.asked) + i
        invariant respwait == AnsweredByAll(old(respwait), frames)
        invariant Extends(old(work), work, frames) && (old(state) != NEW ==> state == old(state))
        invariant LostIn(owners) == old(LostIn(owners)) + Overwritten(old(respwait), frames)
        invariant !alive ==> (hasBuf <==> sock.broken && |SplitAll(consumed).rest| >= HDRSZ)
        invariant alive ==> Ready() && SplitAll(consumed).rest == Got() && Partial(Got()) && !sock.broken
        invariant !alive ==>
          || sock.broken || Malformed(SplitAll(consumed).rest)
          || exists i | 0 <= i < |envs| :: !envs[i].room
        decreases |envs| - i, alive
      {
        ghost var got, before, fs, ws := Got(), consumed, frames, work;
        var st, frame, d := Round(sock, envs[i]);
        PumpStep(before, got, d);
        consumed := consumed + d;
        if st == Complete {
          SplitFrame(frame);
          frames := frames + [frame];
          AnsweredMore(old(respwait), fs, frame);
          ExtendsMore(old(work), ws, work, fs, frame);
          NothingSplits();
        } else if st == Disconnect {
          alive := false;
        }
        i := i + 1;
      }
    }

    /** serv_handledisco(): the waiters are woken and the fields are zeroed, without freeing what they point to. */
    method HandleDisco()
      requires |hdr| == HDRSZ && Accounted()
      modifies this
      ensures Clear() && Got() == [] && state == DYING && respwait == WakeAll(old(respwait))
      ensures hdr == Encode(0, HDRSZ) && nextreq == 0 && !inexec
      ensures owners == Passed(old(owners), old(hasBuf), Lost)
      ensures LostIn(owners) == old(LostIn(owners)) + (if old(hasBuf) then 1 else 0)
    {
      hide Handed, LostIn;
      state := DYING;
      WakeAllKeeps(owners, respwait);
      respwait := WakeAll(respwait);
      PassedKeeps(owners, hasBuf, Lost, respwait);
      ResetBuf(Lost);
      hdr, nextreq, inexec := Encode(0, HDRSZ), 0, false;
    }

    /**
     * A connection from its beginning to the disconnect, or to where `envs` are used up. The buffers lost
     * are one for every response that overwrites an answer, and one more exactly if the stream broke off
     * behind a header whose frame is not complete.
     */
    method ServeConnection(sock: Socket, envs: seq<Environment>)
      returns (frames: seq<Stream>, alive: bool, ghost consumed: Stream)
      requires Ready() && Got() == [] && Accounted() && !sock.broken
      modifies this, sock
      ensures old(sock.incoming) == consumed + sock.incoming && frames == SplitAll(consumed).frames && Accounted()
      ensures LostIn(owners) == old(LostIn(owners)) + Overwritten(old(respwait), frames)
                                + (if !alive && sock.broken && |SplitAll(consumed).rest| >= HDRSZ then 1 else 0)
      ensures if alive then sock.asked >= old(sock.asked) + |envs| else state == DYING && Clear()
      ensures forall i | 0 <= i < |owners| && owners[i] == Reading :: alive
    {
      hide Decode, SplitAll, LostIn, Overwritten, Handed, AnsweredByAll, Extends;
      frames, alive, consumed := Pump(sock, envs);
      if !alive {
        HandleDisco();
      }
    }

    // ----- the threads that wait -----

    /** doputwait() */
    method PutWait(j: JobId) returns (reqno: nat)
      requires Accounted() && !Has(respwait, j)
      modifies this`nextreq, this`respwait
      ensures Accounted() && respwait == old(respwait) + [Waiter(j, reqno, None, Sending)]
      ensures reqno == old(nextreq) && nextreq == reqno + 1
    {
      hide LostIn;
      reqno := nextreq;
      nextreq := nextreq + 1;
      JoinKeeps(owners, respwait, Waiter(j, reqno, None, Sending));
      respwait := respwait + [Waiter(j, reqno, None, Sending)];
    }

    /**
     * The end of a wait, and of the request it was for: the waiter leaves the queue, and its buffer is
     * freed by the caller, unless the send failed or the client is gone. Then it is lost, if there is one.
     */
    method Leave(k: nat, sendFailed: bool)
      requires Accounted() && k < |respwait| && (sendFailed || state == DYING || respwait[k].got != None)
      modifies this`respwait, this`owners
      ensures Accounted() && respwait == old(respwait)[..k] + old(respwait)[k + 1..]
      ensures LostIn(owners) == old(LostIn(owners))
                                + (if Holds(old(respwait)[k]) && (sendFailed || state == DYING) then 1 else 0)
      ensures owners == Moved(old(owners), old(respwait)[k].job, if sendFailed || state == DYING then Lost else Freed)
    {
      hide Handed, LostIn, Moved;
      ghost var owner := if sendFailed || state == DYING then Lost else Freed;
      ghost var none := respwait[k].(got := None);
      ghost var ws1 := respwait[k := none];
      MovedKeeps(owners, hasBuf, respwait, k, owner, none);
      owners := Moved(owners, respwait[k].job, owner);
      LeftKeeps(owners, ws1, k);
      assert ws1[..k] + ws1[k + 1..] == respwait[..k] + respwait[k + 1..];
      respwait := respwait[..k] + respwait[k + 1..];
    }

    lemma StillReady()
      requires Ready()
      ensures Partial(Got())
    {
      hide Decode;
      if off >= HDRSZ {
        StillPartial(Got(), hdr);
      }
    }
  }

  /** What a client that made a request is told, if anything, and whether its connection is shut down. */
  datatype Verdict = Verdict(reply: Option<nat>, shut: bool)

  /** It is told that, with the number of its request, and nothing else. */
  ghost predicate Reacts(before: seq<Reply>, after: seq<Reply>, shut: bool, shut': bool, reqno: nat, v: Verdict) {
    && after == (if v.reply.Some? then before + [Reply(reqno, v.reply.value)] else before)
    && shut' == (shut || v.shut)
  }

  function ForkVerdict(bodylen: int, env: Environment): Verdict {
    if bodylen != FORKSZ then Verdict(Some(MALFORMED), true)
    else if !env.token then Verdict(Some(INVALID_PREFORK), true)
    else if env.cancel then Verdict(None, true)
    else if !env.rfork then Verdict(Some(RFORK_FAILED), true)
    else Verdict(Some(0), false)
  }

  function NewVerdict(f: Stream, env: Environment): Verdict
    requires |f| >= HDRSZ
  {
    if Type(f) != HANDSHAKE then Verdict(Some(AUTH), true)
    else if Arg(f) == GUEST then (if env.rfork then Verdict(Some(0), false) else Verdict(None, true))
    else if Arg(f) == FORK then ForkVerdict(|Body(f)|, env)
    else Verdict(Some(AUTH), true)
  }

  function PreforkVerdict(inexec: bool, env: Environment): Verdict {
    if inexec then Verdict(Some(INEXEC), true)
    else if !env.memory then Verdict(Some(NOMEM), false)
    else if !env.rfork then Verdict(Some(RFORK_FAILED), false)
    else Verdict(Some(0), false)
  }

  /** On a request that does not become work. */
  function Judged(f: Stream, state: Phase, inexec: bool, env: Environment): Verdict
    requires |f| >= HDRSZ
  {
    if state == NEW then NewVerdict(f, env)
    else if Type(f) == PREFORK then PreforkVerdict(inexec, env)
    else if Type(f) == HANDSHAKE && Arg(f) != EXEC then Verdict(Some(MALFORMED), true)
    else if Type(f) == HANDSHAKE && inexec then Verdict(Some(INEXEC), true)
    else if Type(f) == HANDSHAKE || Type(f) == SYSCALL then Verdict(Some(TRYAGAIN), false)
    else Verdict(Some(MALFORMED), false)
  }

  /**
   * Nobody is left waiting: a request that does not become work is answered, or its connection is shut
   * down. A first request is told success and kept exactly if it is welcome, and shut down otherwise; a
   * client that is running is shut down only for a second handshake or for forking during an exec.
   */
  lemma NobodyLeftWaiting(f: Stream, state: Phase, inexec: bool, env: Environment)
    requires |f| >= HDRSZ
    ensures var v := Judged(f, state, inexec, env);
            && (v.reply.Some? || v.shut)
            && (state == NEW ==> if Welcome(f, env) then v == Verdict(Some(0), false) else v.shut)
            && (state != NEW && v.shut ==>
                  || (Type(f) == HANDSHAKE && (Arg(f) != EXEC || inexec))
                  || (Type(f) == PREFORK && inexec))
            && (v.reply == Some(0) ==> Welcome(f, env) || (state != NEW && Type(f) == PREFORK))
  {
    hide Decode;
  }

  /** A first request that makes the client RUNNING. */
  predicate Welcome(f: Stream, env: Environment)
    requires |f| >= HDRSZ
  {
    && Type(f) == HANDSHAKE && env.rfork
    && (Arg(f) == GUEST || (Arg(f) == FORK && |Body(f)| == FORKSZ && env.token && !env.cancel))
  }

  /** A request that becomes work. */
  predicate ForWorker(f: Stream, state: Phase, inexec: bool, env: Environment)
    requires |f| >= HDRSZ
  {
    && state != NEW && 0 !in env.failures
    && (Type(f) == SYSCALL || (Type(f) == HANDSHAKE && Arg(f) == EXEC && !inexec))
  }

  /** What kickwaiter() does to the record of buffers. */
  ghost function Delivered(owners: seq<Owner>, hasBuf: bool, ws: seq<Waiter>, reqno: nat): seq<Owner>
    requires hasBuf ==> owners != []
  {
    var k := FirstWith(ws, reqno);
    if k == |ws| then Passed(owners, hasBuf, Freed)
    else Passed(Moved(owners, ws[k].job, Lost), hasBuf, WithWaiter(ws[k].job))
  }

  lemma OneFirst(ws: seq<Waiter>, reqno: nat, k: nat)
    requires k <= |ws| && (forall n | 0 <= n < k :: ws[n].reqno != reqno) && (k < |ws| ==> ws[k].reqno == reqno)
    ensures FirstWith(ws, reqno) == k
  {
  }

  /** The elements of `a` are among those of `b`, in the same order, each for one of its own. */
  ghost predicate InOrder(a: seq<Stream>, b: seq<Stream>) {
    a == []
    || (b != [] && ((a[|a| - 1] == b[|b| - 1] && InOrder(a[..|a| - 1], b[..|b| - 1])) || InOrder(a, b[..|b| - 1])))
  }

  /** Work was added for frames, for each at most once, and in their order. */
  ghost predicate Extends(before: seq<Stream>, after: seq<Stream>, frames: seq<Stream>) {
    before <= after && InOrder(after[|before|..], frames)
  }

  lemma ExtendsMore(before: seq<Stream>, work: seq<Stream>, work': seq<Stream>, fs: seq<Stream>, f: Stream)
    requires Extends(before, work, fs) && (work' == work || work' == work + [f])
    ensures Extends(before, work', fs + [f])
  {
    var b := fs + [f];
    assert b[..|b| - 1] == fs && b[|b| - 1] == f;
    if work' != work {
      var a := work'[|before|..];
      assert a == work[|before|..] + [f];
      assert a[..|a| - 1] == work[|before|..] && a[|a| - 1] == f;
    }
  }

  lemma NothingDone(ws: seq<Waiter>, work: seq<Stream>)
    ensures AnsweredByAll(ws, []) == ws && Overwritten(ws, []) == 0 && Extends(work, work, [])
  {
  }

  lemma HeaderOnly(got: Stream, hdr: Stream)
    requires |hdr| == HDRSZ && |got| <= HDRSZ && got == hdr[..|got|]
    ensures |got| == HDRSZ ==> got == hdr
    ensures Partial(got) || Malformed(got) || FrameLen(hdr) == HDRSZ
  {
    hide Decode;
  }

  lemma StillPartial(got: Stream, hdr: Stream)
    requires |hdr| == HDRSZ && |got| >= HDRSZ && got[..HDRSZ] == hdr && FrameLen(hdr) > |got|
    ensures Partial(got)
  {
    hide Decode;
    assert got[..WORD] == got[..HDRSZ][..WORD];
  }

  lemma CompleteIsFrame(got: Stream, hdr: Stream, off: nat)
    requires |hdr| == HDRSZ && |got| == off >= HDRSZ && got[..HDRSZ] == hdr && FrameLen(hdr) == off
    ensures IsFrame(got)
  {
    HeaderInFront(got, hdr);
  }

  lemma NothingSplits()
    ensures SplitAll([]) == Split([], []) && Partial([])
  {
  }

  /** A partial rest extended by `d` decides how the longer stream splits. */
  lemma PumpStep(consumed: Stream, got: Stream, d: Stream)
    requires SplitAll(consumed).rest == got && Partial(got)
    ensures SplitAll(consumed + d) == Split(SplitAll(consumed).frames + SplitAll(got + d).frames,
      SplitAll(got + d).rest)
    ensures Partial(got + d) || Malformed(got + d) ==> SplitAll(got + d) == Split([], got + d)
  {
    hide Decode;
    SplitAppend(consumed, d);
  }

  /** A header that announces one byte more, and nothing behind it: a stream that can end in a loss. */
  lemma HalfRead()
    ensures var s := Encode(HDRSZ + 1, WORD) + Encode(0, HDRSZ - WORD); SplitAll(s) == Split([], s) && |s| == HDRSZ
  {
    hide Encode, Decode;
    var s := Encode(HDRSZ + 1, WORD) + Encode(0, HDRSZ - WORD);
    assert s[..WORD] == Encode(HDRSZ + 1, WORD);
    WordRange();
    DecodeEncode(HDRSZ + 1, WORD);
  }

  function Zeroed(n: nat): (z: Stream)
    ensures |z| == n
  {
    seq(n, i => 0)
  }
}
