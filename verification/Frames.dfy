/**
 * The wire format of librumpuser/sysproxy.c: frames with their own length in front, and the
 * splitting of a byte stream into frames that both ends have in mind.
 */
module Frames {
  import opened Bytes

  /** sizeof(struct rsp_hdr): two 64-bit words, two 16-bit ones and a 32-bit one. */
  const HDRSZ: nat := 24

  type Stream = seq<byte>

  /** rsp_len, the first word of the header. */
  function FrameLen(h: Stream): nat
    requires |h| >= HDRSZ
  {
    Decode(h[..WORD])
  }

  function ReqNo(h: Stream): nat
    requires |h| >= HDRSZ
  {
    Decode(h[WORD..2 * WORD])
  }

  /** rsp_class, rsp_type, and the union behind them. */
  function Class(h: Stream): nat
    requires |h| >= HDRSZ
  {
    Decode(h[16..18])
  }

  function Type(h: Stream): nat
    requires |h| >= HDRSZ
  {
    Decode(h[18..20])
  }

  function Arg(h: Stream): nat
    requires |h| >= HDRSZ
  {
    Decode(h[20..24])
  }

  const REQ: nat := 0
  const RESP: nat := 1

  /** What follows the header. */
  function Body(f: Stream): Stream
    requires |f| >= HDRSZ
  {
    f[HDRSZ..]
  }

  /** A header and all its fields, wherever it is followed by more. */
  lemma HeaderInFront(f: Stream, hdr: Stream)
    requires |hdr| == HDRSZ <= |f| && f[..HDRSZ] == hdr
    ensures FrameLen(f) == FrameLen(hdr) && ReqNo(f) == ReqNo(hdr)
    ensures Class(f) == Class(hdr) && Type(f) == Type(hdr) && Arg(f) == Arg(hdr)
  {
    hide Decode;
    assert f[..WORD] == hdr[..WORD] && f[WORD..2 * WORD] == hdr[WORD..2 * WORD];
    assert f[16..18] == hdr[16..18] && f[18..20] == hdr[18..20] && f[20..24] == hdr[20..24];
  }

  /** A whole frame: at least a header, and as long as it says. */
  predicate IsFrame(f: Stream) {
    |f| >= HDRSZ && FrameLen(f) == |f|
  }

  /** The beginning of a frame that is not all there yet. */
  predicate Partial(s: Stream) {
    |s| < HDRSZ || FrameLen(s) > |s|
  }

  /** A header that announces less than a header. */
  predicate Malformed(s: Stream) {
    |s| >= HDRSZ && FrameLen(s) < HDRSZ
  }

  datatype Split = Split(frames: seq<Stream>, rest: Stream)

  /** Cuts complete frames off the front of a stream; stops at a partial or malformed one. */
  function SplitAll(s: Stream): (r: Split)
    decreases |s|
  {
    if Partial(s) || Malformed(s) then Split([], s)
    else
      var tail := SplitAll(s[FrameLen(s)..]);
      Split([s[..FrameLen(s)]] + tail.frames, tail.rest)
  }

  function Flatten(fs: seq<Stream>): Stream {
    if fs == [] then [] else fs[0] + Flatten(fs[1..])
  }

  lemma SplitStep(s: Stream)
    requires !Partial(s) && !Malformed(s)
    ensures var n := FrameLen(s);
            HDRSZ <= n <= |s| && SplitAll(s) == Split([s[..n]] + SplitAll(s[n..]).frames, SplitAll(s[n..]).rest)
  {
  }

  lemma SplitStops(s: Stream)
    requires Partial(s) || Malformed(s)
    ensures SplitAll(s) == Split([], s)
  {
  }

  lemma Assoc(x: Stream, y: Stream, z: Stream)
    ensures (x + y) + z == x + (y + z)
  {
  }

  lemma {:induction false} FlattenAppend(a: seq<Stream>, b: seq<Stream>)
    ensures Flatten(a + b) == Flatten(a) + Flatten(b)
  {
    if a == [] {
      assert a + b == b;
    } else {
      FlattenAppend(a[1..], b);
      assert (a + b)[1..] == a[1..] + b && (a + b)[0] == a[0];
      Assoc(a[0], Flatten(a[1..]), Flatten(b));
    }
  }

  lemma FlattenOne(f: Stream)
    ensures Flatten([f]) == f
  {
    assert [f][1..] == [];
  }

  /** Splitting loses nothing: the frames and the rest are the stream. */
  lemma {:induction false} SplitIsWhole(s: Stream)
    ensures Flatten(SplitAll(s).frames) + SplitAll(s).rest == s
    ensures forall f | f in SplitAll(s).frames :: IsFrame(f)
    ensures Partial(SplitAll(s).rest) || Malformed(SplitAll(s).rest)
    decreases |s|
  {
    hide Decode, FrameLen, IsFrame, SplitAll, Partial, Malformed;
    if Partial(s) || Malformed(s) {
      SplitStops(s);
      assert Flatten([]) + s == s;
    } else {
      SplitStep(s);
      var n := FrameLen(s);
      var f, t := s[..n], s[n..];
      CutIsFrame(s);
      SplitIsWhole(t);
      var r := SplitAll(t);
      FlattenAppend([f], r.frames);
      FlattenOne(f);
      Assoc(f, Flatten(r.frames), r.rest);
      assert f + t == s;
    }
  }

  lemma CutIsFrame(s: Stream)
    requires !Partial(s) && !Malformed(s)
    ensures IsFrame(s[..FrameLen(s)])
  {
    assert s[..FrameLen(s)][..WORD] == s[..WORD];
  }

  lemma FrontFrame(s: Stream, d: Stream)
    requires !Partial(s) && !Malformed(s)
    ensures var n := FrameLen(s);
            && !Partial(s + d) && !Malformed(s + d) && FrameLen(s + d) == n
            && (s + d)[..n] == s[..n] && (s + d)[n..] == s[n..] + d
  {
    hide Decode;
    assert (s + d)[..WORD] == s[..WORD];
  }

  /** More bytes at the end change only what becomes of the rest. */
  lemma {:induction false} SplitAppend(s: Stream, d: Stream)
    requires !Malformed(SplitAll(s).rest)
    ensures SplitAll(s + d) == Split(SplitAll(s).frames + SplitAll(SplitAll(s).rest + d).frames,
                                     SplitAll(SplitAll(s).rest + d).rest)
    decreases |s|
  {
    hide Decode, FrameLen, SplitAll, Partial, Malformed;
    if Partial(s) || Malformed(s) {
      SplitStops(s);
      assert [] + SplitAll(s + d).frames == SplitAll(s + d).frames;
    } else {
      SplitStep(s);
      var n := FrameLen(s);
      FrontFrame(s, d);
      SplitStep(s + d);
      SplitAppend(s[n..], d);
      var r := SplitAll(s[n..]);
      var r' := SplitAll(r.rest + d);
      assert [s[..n]] + (r.frames + r'.frames) == ([s[..n]] + r.frames) + r'.frames;
    }
  }

  lemma SplitFrame(f: Stream)
    requires IsFrame(f)
    ensures SplitAll(f) == Split([f], [])
  {
    assert f[..|f|] == f && f[|f|..] == [];
  }

  /** A stream of whole frames splits back into them. */
  lemma {:induction false} SplitFlatten(fs: seq<Stream>, p: Stream)
    requires forall f | f in fs :: IsFrame(f)
    requires Partial(p)
    ensures SplitAll(Flatten(fs) + p) == Split(fs, p)
  {
    if fs == [] {
      assert Flatten(fs) + p == p;
    } else {
      var f := fs[0];
      SplitFlatten(fs[1..], p);
      SplitFrame(f);
      SplitAppend(f, Flatten(fs[1..]) + p);
      assert f + (Flatten(fs[1..]) + p) == Flatten(fs) + p;
      assert [] + (Flatten(fs[1..]) + p) == Flatten(fs[1..]) + p;
      assert [f] + fs[1..] == fs;
    }
  }
}
