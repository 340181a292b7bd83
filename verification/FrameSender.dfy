/** The scatter-gather sender, dosend(), on a socket that takes as much as it likes. */
module FrameSender {
  import opened Bytes
  import opened Frames

  const EINTR: int := 4
  const EAGAIN: int := 11
  const EPIPE: int := 32
  const ENOTCONN: int := 107

  /** A send either accepts some bytes or fails with an errno. */
  datatype SendResult = Sent(n: nat) | Error(errno: int)

  datatype Call = Sendmsg(result: SendResult) | Polled(errno: int)
  {
    /** The system asks to be tried again, or to be asked again whether it is time. */
    predicate TryAgain() {
      this == Sendmsg(Error(EAGAIN)) || this == Polled(EINTR)
    }

    /** It refuses for good: any other errno, or a send that takes nothing. */
    predicate Refuses() {
      !TryAgain() && (if Sendmsg? then result.Error? || result.n == 0 else errno != 0)
    }

    function Errno(): int {
      if Polled? then errno else if result.Error? then result.errno else ENOTCONN
    }
  }

  /** Whoever was told to try again waits for room before sending. */
  ghost predicate Polite(calls: seq<Call>, from: nat) {
    forall i | from <= i < |calls| - 1 && calls[i].TryAgain() :: calls[i + 1].Polled?
  }

  /**
   * The sending side of a connection. It accepts any number of the bytes offered; it may ask to be
   * tried again any number of times, of which Patience() is a bound for the run at hand.
   */
  class Channel {
    var wire: Stream
    var script: seq<SendResult>
    var polls: seq<int>
    ghost var calls: seq<Call>   // what has been called, and what came of it

    function Patience(): nat
      reads this
    {
      |script| + |polls|
    }

    constructor (script: seq<SendResult>, polls: seq<int>)
      ensures wire == []
    {
      this.script, this.polls := script, polls;
      wire, calls := [], [];
    }

    /** sendmsg() of everything in `iov`. */
    method SendMsg(iov: seq<Stream>) returns (r: SendResult)
      modifies this
      ensures r.Sent? ==> r.n <= |Flatten(iov)| && wire == old(wire) + Flatten(iov)[..r.n]
      ensures r.Error? ==> wire == old(wire) && r.errno > 0
      ensures r.Error? && r.errno == EAGAIN ==> Patience() < old(Patience())
      ensures calls == old(calls) + [Sendmsg(r)]
    {
      r := if script == [] then Error(EPIPE) else script[0];
      script := if script == [] then [] else script[1..];
      if r.Error? && r.errno <= 0 {
        r := Error(EPIPE);
      }
      if r.Sent? && r.n > |Flatten(iov)| {
        r := Sent(|Flatten(iov)|);
      }
      if r.Sent? {
        wire := wire + Flatten(iov)[..r.n];
      }
      calls := calls + [Sendmsg(r)];
    }

    /** poll() for room: 0, or an errno. */
    method Poll() returns (errno: int)
      modifies this
      ensures wire == old(wire) && errno >= 0 && calls == old(calls) + [Polled(errno)]
      ensures Patience() <= old(Patience()) && (errno == EINTR ==> Patience() < old(Patience()))
    {
      errno := if polls == [] || polls[0] < 0 then 0 else polls[0];
      polls := if polls == [] || polls[0] < 0 then polls else polls[1..];
      calls := calls + [Polled(errno)];
    }
  }

  /** `n` bytes taken off the front of a vector of buffers. */
  method Advance(iov: seq<Stream>, n: nat) returns (iov': seq<Stream>, left: nat)
    requires n <= |Flatten(iov)|
    ensures Flatten(iov') == Flatten(iov)[n..]
    ensures iov' == [] ==> n == |Flatten(iov)| && left == 0
    ensures iov' != [] ==> n < |Flatten(iov)|
  {
    iov', left := iov, n;
    while iov' != [] && left >= |iov'[0]|
      invariant left <= n && left <= |Flatten(iov')| && Flatten(iov')[left..] == Flatten(iov)[n..]
      decreases |iov'|
    {
      left := left - |iov'[0]|;
      iov' := iov'[1..];
    }
    if iov' != [] {
      ghost var whole := Flatten(iov');
      var first := iov'[0][left..];
      iov' := [first] + iov'[1..];
      assert Flatten(iov') == first + Flatten(iov'[1..]);
      assert Flatten(iov') == whole[left..];
    }
  }

  /**
   * dosend(): it fails if and only if the system refuses for good, with the errno of that call, where a
   * send of nothing counts as a lost connection; when it is told to try again it waits and does. On success
   * all of the vector is on the wire, on failure a part of it.
   */
  method DoSend(ch: Channel, iov0: seq<Stream>) returns (error: int)
    modifies ch
    ensures error == 0 ==> ch.wire == old(ch.wire) + Flatten(iov0)
    ensures error != 0 ==> exists k | 0 <= k <= |Flatten(iov0)| :: ch.wire == old(ch.wire) + Flatten(iov0)[..k]
                                                              && (k < |Flatten(iov0)| || Flatten(iov0) == [])
    ensures old(ch.calls) <= ch.calls && Concluded(ch.calls, |old(ch.calls)|, error)
  {
    hide Flatten, Going, Concluded, Left;
    ghost var whole, k, from := Flatten(iov0), 0, |ch.calls|;
    var iov, waited := iov0, false;
    NoCall(ch.calls);
    NothingSent(ch.wire, iov0);
    while true
      invariant Left(old(ch.wire), ch.wire, whole, iov, k)
      invariant k < |whole| || whole == []
      invariant old(ch.calls) <= ch.calls && Going(ch.calls, from, waited)
      decreases |whole| - k, ch.Patience()
    {
      PartIsSent(old(ch.wire), ch.wire, whole, iov, k);
      if waited {
        ghost var calls := ch.calls;
        var errno := ch.Poll();
        NextCall(calls, from, waited, Polled(errno));
        if errno == EINTR {
          continue;
        }
        if errno != 0 {
          return errno;
        }
      }
      ghost var calls, wire, rest := ch.calls, ch.wire, iov;
      var r := ch.SendMsg(iov);
      NextCall(calls, from, false, Sendmsg(r));
      if r.Error? {
        if r.errno != EAGAIN {
          return r.errno;                // EPIPE is reported as itself
        }
        waited := true;
        continue;
      }
      if r.n == 0 {
        return ENOTCONN;
      }
      var left;
      iov, left := Advance(iov, r.n);
      SentSome(old(ch.wire), wire, whole, rest, k, r.n, ch.wire, iov);
      k := k + r.n;
      Relax(ch.calls, from, left != 0);
      waited := left != 0;
      if iov == [] {
        AllIsSent(old(ch.wire), ch.wire, whole, k);
        return 0;
      }
    }
  }

  /** The first `k` bytes are on the wire and the others in the vector. */
  ghost predicate Left(wire0: Stream, wire: Stream, whole: Stream, iov: seq<Stream>, k: nat) {
    k <= |whole| && wire == wire0 + whole[..k] && Flatten(iov) == whole[k..]
  }

  lemma NothingSent(wire: Stream, iov: seq<Stream>)
    ensures Left(wire, wire, Flatten(iov), iov, 0)
  {
  }

  lemma SentSome(wire0: Stream, wire: Stream, whole: Stream, iov: seq<Stream>, k: nat, n: nat,
                 wire': Stream, iov': seq<Stream>)
    requires Left(wire0, wire, whole, iov, k) && n <= |Flatten(iov)|
    requires wire' == wire + Flatten(iov)[..n] && Flatten(iov') == Flatten(iov)[n..]
    ensures k + n <= |whole| && |Flatten(iov)| == |whole| - k && Left(wire0, wire', whole, iov', k + n)
  {
    hide Flatten;
    assert whole[..k] + whole[k..][..n] == whole[..k + n];
    assert whole[k..][n..] == whole[k + n..];
  }

  lemma PartIsSent(wire0: Stream, wire: Stream, whole: Stream, iov: seq<Stream>, k: nat)
    requires Left(wire0, wire, whole, iov, k)
    ensures k <= |whole| && wire == wire0 + whole[..k]
  {
  }

  lemma AllIsSent(wire0: Stream, wire: Stream, whole: Stream, k: nat)
    requires Left(wire0, wire, whole, [], k)
    ensures k == |whole| && wire == wire0 + whole
  {
  }

  /** So far nobody has refused; `waited` says that the next call must be a poll. */
  ghost predicate Going(calls: seq<Call>, from: nat, waited: bool) {
    && from <= |calls| && Polite(calls, from)
    && (forall i | from <= i < |calls| :: !calls[i].Refuses())
    && (|calls| > from && calls[|calls| - 1].TryAgain() ==> waited)
  }

  /** A failure is a refusal, by the last call, with its errno; a success is none; and all calls were polite. */
  ghost predicate Concluded(calls: seq<Call>, from: nat, error: int) {
    && from <= |calls| && Polite(calls, from)
    && (error != 0 <==> exists i :: from <= i < |calls| && calls[i].Refuses())
    && (error != 0 ==> |calls| > from && calls[|calls| - 1].Refuses() && error == calls[|calls| - 1].Errno())
  }

  lemma NoCall(calls: seq<Call>)
    ensures Going(calls, |calls|, false)
  {
  }

  lemma NextCall(calls: seq<Call>, from: nat, waited: bool, c: Call)
    requires Going(calls, from, waited) && (waited ==> c.Polled?)
    requires c.Polled? ==> c.errno >= 0
    requires c.Sendmsg? && c.result.Error? ==> c.result.errno > 0
    ensures if c.Refuses() then Concluded(calls + [c], from, c.Errno())
            else Going(calls + [c], from, c.TryAgain()) && Concluded(calls + [c], from, 0)
  {
    var calls' := calls + [c];
    assert calls'[|calls|] == c && forall i | 0 <= i < |calls| :: calls'[i] == calls[i];
  }

  lemma Relax(calls: seq<Call>, from: nat, waited: bool)
    requires Going(calls, from, false)
    ensures Going(calls, from, waited)
  {
  }

  // ----- the frames that are sent -----

  /** A header as the send routines fill it in. */
  function MakeHeader(len: nat, reqno: nat, cls: nat, typ: nat, arg: nat): (h: Stream)
    ensures |h| == HDRSZ
  {
    Encode(len, 8) + Encode(reqno, 8) + Encode(cls, 2) + Encode(typ, 2) + Encode(arg, 4)
  }

  /** Its fields read back as they were written, whatever follows. */
  lemma HeaderReadsBack(len: nat, reqno: nat, cls: nat, typ: nat, arg: nat, payload: Stream)
    requires len < TWO64 && reqno < TWO64 && cls < 0x1_0000 && typ < 0x1_0000 && arg < 0x1_0000_0000
    ensures var f := MakeHeader(len, reqno, cls, typ, arg) + payload;
            && FrameLen(f) == len && ReqNo(f) == reqno
            && Decode(f[16..18]) == cls && Decode(f[18..20]) == typ && Decode(f[20..24]) == arg
            && f[HDRSZ..] == payload
  {
    hide Encode, Decode;
    var f := MakeHeader(len, reqno, cls, typ, arg) + payload;
    assert f[..8] == Encode(len, 8) && f[8..16] == Encode(reqno, 8) && f[16..18] == Encode(cls, 2);
    assert f[18..20] == Encode(typ, 2) && f[20..24] == Encode(arg, 4);
    WordRange();
    assert Pow256(2) == 0x1_0000 && Pow256(4) == 0x1_0000_0000;
    DecodeEncode(len, 8);
    DecodeEncode(reqno, 8);
    DecodeEncode(cls, 2);
    DecodeEncode(typ, 2);
    DecodeEncode(arg, 4);
  }

  /** A header that counts itself and the buffers behind it makes them one frame. */
  lemma VectorIsFrame(bufs: seq<Stream>, reqno: nat, cls: nat, typ: nat, arg: nat)
    requires HDRSZ + |Flatten(bufs)| < TWO64 && reqno < TWO64 && cls < 0x1_0000 && typ < 0x1_0000 && arg < 0x1_0000_0000
    ensures var h := MakeHeader(HDRSZ + |Flatten(bufs)|, reqno, cls, typ, arg);
            Flatten([h] + bufs) == h + Flatten(bufs) && IsFrame(h + Flatten(bufs))
  {
    var h := MakeHeader(HDRSZ + |Flatten(bufs)|, reqno, cls, typ, arg);
    HeaderReadsBack(HDRSZ + |Flatten(bufs)|, reqno, cls, typ, arg, Flatten(bufs));
    hide Encode, Decode;
    assert ([h] + bufs)[1..] == bufs;
  }
}
