/**
 * Who has to free the buffers that frames are read into. A buffer is lost when the last pointer to it
 * is overwritten; nothing in the program frees it after that.
 */
module Buffers {
  import opened Clients
  import opened Frames
  import opened Options

  /** The reader, nobody any more, the waiter of a job, a worker, or nobody although it was not freed. */
  datatype Owner = Reading | Freed | WithWaiter(job: JobId) | WithWorker | Lost

  /** The waiter has been given a buffer: the body of its response was not empty. */
  predicate Holds(w: Waiter) {
    w.got != None && w.got.value != []
  }

  /** The reader has the latest buffer, or none. */
  ghost predicate Latest(owners: seq<Owner>, hasBuf: bool) {
    && (hasBuf ==> owners != [] && owners[|owners| - 1] == Reading)
    && (forall i | 0 <= i < |owners| && owners[i] == Reading :: hasBuf && i == |owners| - 1)
  }

  /** The buffers handed to waiters are those that the waiters in the queue hold, one each. */
  ghost predicate Handed(owners: seq<Owner>, ws: seq<Waiter>) {
    && (forall k, l | 0 <= k < l < |ws| :: ws[k].job != ws[l].job)
    && (forall i, j | 0 <= i < j < |owners| && owners[i].WithWaiter? :: owners[i] != owners[j])
    && (forall i | 0 <= i < |owners| && owners[i].WithWaiter? ::
          exists k :: 0 <= k < |ws| && Holds(ws[k]) && ws[k].job == owners[i].job)
    && (forall k | 0 <= k < |ws| && Holds(ws[k]) :: WithWaiter(ws[k].job) in owners)
  }

  ghost function LostIn(owners: seq<Owner>): nat {
    multiset(owners)[Lost]
  }

  /** The latest buffer, if the reader has it, goes to its new owner; all others stay where they are. */
  ghost function Passed(owners: seq<Owner>, hasBuf: bool, owner: Owner): seq<Owner>
    requires hasBuf ==> owners != []
  {
    if hasBuf then owners[|owners| - 1 := owner] else owners
  }

  /** The buffer of job j's waiter, if it has one, gets another owner. */
  ghost function Moved(owners: seq<Owner>, j: JobId, owner: Owner): (r: seq<Owner>)
    ensures |r| == |owners|
  {
    if owners == [] then []
    else if owners[0] == WithWaiter(j) then [owner] + owners[1..]
    else [owners[0]] + Moved(owners[1..], j, owner)
  }

  lemma {:induction false} MovedIs(owners: seq<Owner>, j: JobId, owner: Owner, i: nat)
    requires i <= |owners| && (forall n | 0 <= n < i :: owners[n] != WithWaiter(j))
    requires i < |owners| ==> owners[i] == WithWaiter(j)
    ensures Moved(owners, j, owner) == if i == |owners| then owners else owners[i := owner]
  {
    if owners != [] && i > 0 {
      var rest := owners[1..];
      assert forall n | 0 <= n < |rest| :: rest[n] == owners[n + 1];
      MovedIs(rest, j, owner, i - 1);
      assert i < |owners| ==> [owners[0]] + rest[i - 1 := owner] == owners[i := owner];
    }
  }

  /** Where the buffer of job j's waiter is, or the number of buffers. */
  ghost function Place(owners: seq<Owner>, j: JobId): (i: nat)
    ensures i <= |owners| && (forall n | 0 <= n < i :: owners[n] != WithWaiter(j))
    ensures i < |owners| ==> owners[i] == WithWaiter(j)
  {
    if owners == [] || owners[0] == WithWaiter(j) then 0
    else
      var i := Place(owners[1..], j);
      assert forall n | 1 <= n < i + 1 :: owners[n] == owners[1..][n - 1];
      i + 1
  }

  lemma LostAfter(owners: seq<Owner>, i: nat, owner: Owner)
    requires i < |owners| && owners[i] != Lost
    ensures LostIn(owners[i := owner]) == LostIn(owners) + (if owner == Lost then 1 else 0)
  {
  }

  /** Freeing the latest buffer, or handing it to a worker, or losing it, concerns no waiter. */
  lemma PassedKeeps(owners: seq<Owner>, hasBuf: bool, owner: Owner, ws: seq<Waiter>)
    requires Latest(owners, hasBuf) && Handed(owners, ws) && owner != Reading && !owner.WithWaiter?
    ensures Latest(Passed(owners, hasBuf, owner), false) && Handed(Passed(owners, hasBuf, owner), ws)
    ensures LostIn(Passed(owners, hasBuf, owner)) == LostIn(owners) + (if hasBuf && owner == Lost then 1 else 0)
  {
    if hasBuf {
      var last := |owners| - 1;
      var owners' := owners[last := owner];
      LostAfter(owners, last, owner);
      forall k | 0 <= k < |ws| && Holds(ws[k])
        ensures WithWaiter(ws[k].job) in owners'
      {
        var i :| 0 <= i < |owners| && owners[i] == WithWaiter(ws[k].job);
        assert owners'[i] == owners[i];
      }
    }
  }

  /** A new buffer for the reader. */
  lemma NewBuffer(owners: seq<Owner>, ws: seq<Waiter>)
    requires Latest(owners, false) && Handed(owners, ws)
    ensures Latest(owners + [Reading], true) && Handed(owners + [Reading], ws)
    ensures LostIn(owners + [Reading]) == LostIn(owners)
  {
    var owners' := owners + [Reading];
    assert forall i | 0 <= i < |owners| :: owners'[i] == owners[i];
    forall k | 0 <= k < |ws| && Holds(ws[k])
      ensures WithWaiter(ws[k].job) in owners'
    {
      assert WithWaiter(ws[k].job) in owners;
    }
  }

  /** A waiter's buffer is on the record exactly if it holds one, and once. */
  lemma OnRecord(owners: seq<Owner>, ws: seq<Waiter>, k: nat)
    requires Handed(owners, ws) && k < |ws|
    ensures Place(owners, ws[k].job) < |owners| <==> Holds(ws[k])
    ensures forall n | 0 <= n < |owners| && n != Place(owners, ws[k].job) :: owners[n] != WithWaiter(ws[k].job)
  {
    hide Place, Holds;
    var j := ws[k].job;
    var i := Place(owners, j);
    if i < |owners| {
      var l :| 0 <= l < |ws| && Holds(ws[l]) && ws[l].job == j;
    }
  }

  /** The buffer a waiter holds goes elsewhere, and the waiter holds nothing any more. */
  lemma MovedKeeps(owners: seq<Owner>, hasBuf: bool, ws: seq<Waiter>, k: nat, owner: Owner, w: Waiter)
    requires Latest(owners, hasBuf) && Handed(owners, ws) && k < |ws| && !owner.WithWaiter? && owner != Reading
    requires w.job == ws[k].job && !Holds(w)
    ensures var r := Moved(owners, ws[k].job, owner); Latest(r, hasBuf) && Handed(r, ws[k := w])
    ensures LostIn(Moved(owners, ws[k].job, owner)) == LostIn(owners) + (if Holds(ws[k]) && owner == Lost then 1 else 0)
  {
    hide Place, Moved, LostIn, Holds;
    var j := ws[k].job;
    var i := Place(owners, j);
    MovedIs(owners, j, owner, i);
    OnRecord(owners, ws, k);
    if i < |owners| {
      LostAfter(owners, i, owner);
      StillHanded(owners, ws, k, i, owner, w);
    } else {
      SameHolders(owners, ws, k, w);
    }
  }

  lemma StillHanded(owners: seq<Owner>, ws: seq<Waiter>, k: nat, i: nat, owner: Owner, w: Waiter)
    requires Handed(owners, ws) && k < |ws| && i < |owners| && owners[i] == WithWaiter(ws[k].job)
    requires w.job == ws[k].job && !Holds(w) && !owner.WithWaiter?
    ensures Handed(owners[i := owner], ws[k := w])
  {
    hide Holds;
    var r, ws' := owners[i := owner], ws[k := w];
    forall n | 0 <= n < |r| && r[n].WithWaiter?
      ensures exists l :: 0 <= l < |ws'| && Holds(ws'[l]) && ws'[l].job == r[n].job
    {
      var l :| 0 <= l < |ws| && Holds(ws[l]) && ws[l].job == owners[n].job;
      assert l != k && ws'[l] == ws[l];
    }
    forall l | 0 <= l < |ws'| && Holds(ws'[l])
      ensures WithWaiter(ws'[l].job) in r
    {
      var n :| 0 <= n < |owners| && owners[n] == WithWaiter(ws[l].job);
      assert n != i && r[n] == owners[n];
    }
  }

  lemma SameHolders(owners: seq<Owner>, ws: seq<Waiter>, k: nat, w: Waiter)
    requires Handed(owners, ws) && k < |ws| && !Holds(ws[k]) && w.job == ws[k].job && !Holds(w)
    ensures Handed(owners, ws[k := w])
  {
    hide Holds;
    var ws' := ws[k := w];
    forall n | 0 <= n < |owners| && owners[n].WithWaiter?
      ensures exists l :: 0 <= l < |ws'| && Holds(ws'[l]) && ws'[l].job == owners[n].job
    {
      var l :| 0 <= l < |ws| && Holds(ws[l]) && ws[l].job == owners[n].job;
      assert ws'[l] == ws[l];
    }
  }

  /** A waiter that holds nothing is given the latest buffer, or the word that there is none. */
  lemma GivenKeeps(owners: seq<Owner>, hasBuf: bool, ws: seq<Waiter>, k: nat, w: Waiter)
    requires Latest(owners, hasBuf) && Handed(owners, ws) && k < |ws| && !Holds(ws[k])
    requires w.job == ws[k].job && (Holds(w) <==> hasBuf)
    ensures var r := Passed(owners, hasBuf, WithWaiter(ws[k].job)); Latest(r, false) && Handed(r, ws[k := w])
    ensures LostIn(Passed(owners, hasBuf, WithWaiter(ws[k].job))) == LostIn(owners)
  {
    var j, ws' := ws[k].job, ws[k := w];
    var r := Passed(owners, hasBuf, WithWaiter(j));
    if hasBuf {
      LostAfter(owners, |owners| - 1, WithWaiter(j));
      assert r[|owners| - 1] == WithWaiter(j) && ws'[k] == w;
    }
    forall n | 0 <= n < |owners| && owners[n].WithWaiter?
      ensures owners[n] != WithWaiter(j) && r[n] == owners[n]
      ensures exists l :: 0 <= l < |ws'| && Holds(ws'[l]) && ws'[l].job == owners[n].job
    {
      var l :| 0 <= l < |ws| && Holds(ws[l]) && ws[l].job == owners[n].job;
      assert ws'[l] == ws[l];
    }
    forall l | 0 <= l < |ws'| && Holds(ws'[l])
      ensures WithWaiter(ws'[l].job) in r
    {
      if l != k {
        var n :| 0 <= n < |owners| && owners[n] == WithWaiter(ws[l].job);
        assert r[n] == owners[n];
      }
    }
  }

  /** A waiter that holds nothing leaves the queue. */
  lemma LeftKeeps(owners: seq<Owner>, ws: seq<Waiter>, k: nat)
    requires Handed(owners, ws) && k < |ws| && !Holds(ws[k])
    ensures Handed(owners, ws[..k] + ws[k + 1..])
  {
    var ws' := ws[..k] + ws[k + 1..];
    assert forall n | 0 <= n < |ws'| :: ws'[n] == ws[if n < k then n else n + 1];
    forall n | 0 <= n < |owners| && owners[n].WithWaiter?
      ensures exists l :: 0 <= l < |ws'| && Holds(ws'[l]) && ws'[l].job == owners[n].job
    {
      var l :| 0 <= l < |ws| && Holds(ws[l]) && ws[l].job == owners[n].job;
      assert ws'[if l < k then l else l - 1] == ws[l];
    }
  }

  lemma WakeAllKeeps(owners: seq<Owner>, ws: seq<Waiter>)
    requires Handed(owners, ws)
    ensures Handed(owners, WakeAll(ws))
  {
    var ws' := WakeAll(ws);
    assert forall k | 0 <= k < |ws| :: ws'[k] == Wake(ws[k]);
    assert forall k | 0 <= k < |ws| :: ws'[k].job == ws[k].job && (Holds(ws'[k]) <==> Holds(ws[k]));
    forall n | 0 <= n < |owners| && owners[n].WithWaiter?
      ensures exists l :: 0 <= l < |ws'| && Holds(ws'[l]) && ws'[l].job == owners[n].job
    {
      var l :| 0 <= l < |ws| && Holds(ws[l]) && ws[l].job == owners[n].job;
      assert Holds(ws'[l]);
    }
  }

  /** The answer of the waiter at k is replaced: what kickwaiter() does to the record. */
  lemma KickKeeps(owners: seq<Owner>, hasBuf: bool, ws: seq<Waiter>, k: nat, w: Waiter)
    requires Latest(owners, hasBuf) && Handed(owners, ws) && k < |ws| && w.job == ws[k].job && (Holds(w) <==> hasBuf)
    ensures var r := Moved(owners, ws[k].job, Lost);
            && Latest(r, hasBuf)
            && Handed(Passed(r, hasBuf, WithWaiter(ws[k].job)), ws[k := w])
            && LostIn(Passed(r, hasBuf, WithWaiter(ws[k].job))) == LostIn(owners) + (if Holds(ws[k]) then 1 else 0)
  {
    hide Handed, LostIn, Moved, Passed;
    var none := ws[k].(got := None);
    MovedKeeps(owners, hasBuf, ws, k, Lost, none);
    var ws1 := ws[k := none];
    GivenKeeps(Moved(owners, ws[k].job, Lost), hasBuf, ws1, k, w);
    assert ws1[k := w] == ws[k := w];
  }

  /** A waiter joins the queue. */
  lemma JoinKeeps(owners: seq<Owner>, ws: seq<Waiter>, w: Waiter)
    requires Handed(owners, ws) && !Holds(w) && !Has(ws, w.job)
    ensures Handed(owners, ws + [w])
  {
    var ws' := ws + [w];
    assert forall n | 0 <= n < |ws| :: ws'[n] == ws[n] && ws[n].job != w.job;
    forall n | 0 <= n < |owners| && owners[n].WithWaiter?
      ensures exists l :: 0 <= l < |ws'| && Holds(ws'[l]) && ws'[l].job == owners[n].job
    {
      var l :| 0 <= l < |ws| && Holds(ws[l]) && ws[l].job == owners[n].job;
      assert ws'[l] == ws[l];
    }
  }

  // ----- which responses lose a buffer -----

  /** The first waiter with the number already holds an answer. */
  ghost predicate Taken(ws: seq<Waiter>, reqno: nat) {
    var k := FirstWith(ws, reqno); k < |ws| && Holds(ws[k])
  }

  /** A response to a request that has been answered, by a waiter that has not looked. */
  ghost predicate Overwrites(ws: seq<Waiter>, f: Stream)
    requires |f| >= HDRSZ
  {
    Class(f) == RESP && Taken(ws, ReqNo(f))
  }

  /** The waiters after a frame has been dispatched: a response is given to the one that has its number. */
  function AnsweredBy(ws: seq<Waiter>, f: Stream): seq<Waiter>
    requires |f| >= HDRSZ
  {
    if Class(f) == RESP then Kick(ws, ReqNo(f), Body(f)) else ws
  }

  function AnsweredByAll(ws: seq<Waiter>, fs: seq<Stream>): seq<Waiter> {
    if fs == [] then ws
    else
      var before, f := AnsweredByAll(ws, fs[..|fs| - 1]), fs[|fs| - 1];
      if |f| >= HDRSZ then AnsweredBy(before, f) else before
  }

  /** How many of the frames are responses that overwrite an answer. */
  ghost function Overwritten(ws: seq<Waiter>, fs: seq<Stream>): nat {
    if fs == [] then 0
    else
      var init, f := fs[..|fs| - 1], fs[|fs| - 1];
      Overwritten(ws, init) + (if |f| >= HDRSZ && Overwrites(AnsweredByAll(ws, init), f) then 1 else 0)
  }

  lemma AnsweredMore(ws: seq<Waiter>, fs: seq<Stream>, f: Stream)
    requires IsFrame(f)
    ensures AnsweredByAll(ws, fs + [f]) == AnsweredBy(AnsweredByAll(ws, fs), f)
    ensures Overwritten(ws, fs + [f]) == Overwritten(ws, fs) + (if Overwrites(AnsweredByAll(ws, fs), f) then 1 else 0)
  {
    assert (fs + [f])[..|fs|] == fs;
  }

  /** Two responses to one request, before the waiter looks: the first buffer is lost. */
  lemma TwoResponses(f: Stream)
    requires IsFrame(f) && Class(f) == RESP && Body(f) != []
    ensures Overwritten([Waiter(0, ReqNo(f), None, Asleep)], [f, f]) == 1
  {
    var ws := [Waiter(0, ReqNo(f), None, Asleep)];
    assert [f] == [] + [f] && [f, f] == [f] + [f];
    AnsweredMore(ws, [], f);
    AnsweredMore(ws, [f], f);
    KickIs(ws, ReqNo(f), Body(f), 0);
  }
}
