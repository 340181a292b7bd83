/**
 * The client table of librumpuser/sysproxy.c: slots that are connected, counted, disconnected and
 * reused by the main thread while worker threads hold references, wait for responses and release.
 */
module Clients {
  import opened Bytes
  import opened Options

  const MAXCLI: nat := 256

  type Data = seq<byte>
  type JobId = nat

  /** spc_state */
  datatype Phase = NEW | RUNNING | DYING

  /** A waiter's thread: still sending, in pthread_cond_wait(), or about to look at what it waits for. */
  datatype Sleep = Sending | Asleep | Awake

  /** struct respwait; rw_done, rw_data and rw_dlen are one optional value. */
  datatype Waiter = Waiter(job: JobId, reqno: nat, got: Option<Data>, sleep: Sleep)

  /**
   * A slot: the polled descriptor (main thread only), struct spclient, and who is using it. `jobs`
   * are the queued or running pieces of work for the client; `closing` says that a thread has taken
   * the count to zero and not closed the descriptor yet.
   */
  datatype Client = Client(pfd: bool, fd: bool, state: Phase, refcnt: int, nextreq: nat,
                           respwait: seq<Waiter>, jobs: set<JobId>, closing: bool)
  {
    predicate Free() {
      !pfd && state == NEW
    }

    function Connect(): Client {
      this.(pfd := true, fd := true, refcnt := 1, respwait := [])
    }

    /** spcrelease(), up to where the mutex is released */
    function Release(): Client {
      this.(refcnt := refcnt - 1, closing := closing || refcnt - 1 <= 0)
    }

    /** The rest of spcrelease() but for signaldisco() */
    function Close(): Client {
      this.(fd := false, state := NEW, closing := false)
    }

    function Submit(j: JobId): Client {
      this.(refcnt := refcnt + 1, jobs := jobs + {j})
    }

    function FinishJob(j: JobId): Client {
      this.(jobs := jobs - {j}).Release()
    }

    function PutWait(j: JobId): Client {
      this.(respwait := respwait + [Waiter(j, nextreq, None, Sending)], nextreq := nextreq + 1)
    }

    /** serv_handledisco(), under the mutex */
    function Disconnect(): Client {
      this.(pfd := false, state := DYING, respwait := WakeAll(respwait))
    }

    /** One turn of the loop in waitresp(), and its end. */
    function Look(j: JobId): Client
      requires Has(respwait, j)
    {
      var w := respwait[At(respwait, j)];
      if w.got == None && state != DYING then this.(respwait := Put(respwait, j, Asleep))
      else this.(respwait := Without(respwait, j))
    }
  }

  predicate Has(ws: seq<Waiter>, j: JobId) {
    exists k :: 0 <= k < |ws| && ws[k].job == j
  }

  function At(ws: seq<Waiter>, j: JobId): (k: nat)
    requires Has(ws, j)
    ensures k < |ws| && ws[k].job == j
  {
    if ws[0].job == j then 0 else 1 + At(ws[1..], j)
  }

  function Put(ws: seq<Waiter>, j: JobId, x: Sleep): (r: seq<Waiter>)
    requires Has(ws, j)
  {
    var k := At(ws, j);
    ws[k := ws[k].(sleep := x)]
  }

  function Without(ws: seq<Waiter>, j: JobId): seq<Waiter>
    requires Has(ws, j)
  {
    var k := At(ws, j);
    ws[..k] + ws[k + 1..]
  }

  function Wake(w: Waiter): Waiter {
    if w.sleep == Asleep then w.(sleep := Awake) else w
  }

  /** kickall() */
  function WakeAll(ws: seq<Waiter>): (r: seq<Waiter>)
    ensures |r| == |ws| && forall k | 0 <= k < |ws| :: r[k] == Wake(ws[k])
  {
    if ws == [] then [] else [Wake(ws[0])] + WakeAll(ws[1..])
  }

  /** kickwaiter(): the first waiter with this number gets the data; without one the data is dropped. */
  function Kick(ws: seq<Waiter>, reqno: nat, data: Data): (r: seq<Waiter>)
    ensures |r| == |ws| && forall k | 0 <= k < |ws| :: r[k].job == ws[k].job && r[k].reqno == ws[k].reqno
  {
    if ws == [] then []
    else if ws[0].reqno == reqno then [Wake(ws[0]).(got := Some(data))] + ws[1..]
    else [ws[0]] + Kick(ws[1..], reqno, data)
  }

  lemma {:induction false} KickIs(ws: seq<Waiter>, reqno: nat, data: Data, k: nat)
    requires k <= |ws| && (forall n | 0 <= n < k :: ws[n].reqno != reqno) && (k < |ws| ==> ws[k].reqno == reqno)
    ensures Kick(ws, reqno, data) == if k == |ws| then ws else ws[k := Wake(ws[k]).(got := Some(data))]
  {
    if ws != [] && k > 0 {
      KickIs(ws[1..], reqno, data, k - 1);
    }
  }

  /** Which client the main thread is in the middle of disconnecting. */
  datatype Main = Loop | Wiping(i: nat) | Dropping(i: nat)

  datatype Table = Table(cs: seq<Client>, nfds: int, maxidx: nat, disco: nat)
  {
    function Set(i: nat, c: Client): Table
      requires i < |cs|
    {
      this.(cs := cs[i := c])
    }
  }

  /** The search for a slot in serv_handleconn(); |cs| when there is none. */
  function FirstFree(cs: seq<Client>, i: nat): (k: nat)
    requires i <= |cs|
    ensures i <= k <= |cs|
    ensures k < |cs| ==> cs[k].Free()
    ensures forall n | i <= n < k :: !cs[n].Free()
    decreases |cs| - i
  {
    if i == |cs| || cs[i].Free() then i else FirstFree(cs, i + 1)
  }

  /** The highest polled index up to `idx`, 0 when only the listening socket is left. */
  function Highest(cs: seq<Client>, idx: nat): (k: nat)
    requires idx < |cs|
    ensures k <= idx && (k > 0 ==> cs[k].pfd)
    ensures forall n | k < n <= idx :: !cs[n].pfd
  {
    if idx == 0 || cs[idx].pfd then idx else Highest(cs, idx - 1)
  }

  /** What the main loop makes of the disconnects signalled since it last looked. */
  function Collected(t: Table): Table
    requires t.maxidx < |t.cs|
  {
    if t.disco == 0 then t
    else
      var h := Highest(t.cs, t.maxidx);
      Table(t.cs, t.nfds - t.disco, if h == 0 then t.maxidx else h, 0)
  }

  /** A connection that gets past the checks; slot |cs| stands for abort(). */
  function Connected(t: Table): (r: (Table, bool))
    requires t.maxidx < |t.cs|
  {
    if t.nfds == MAXCLI then (t, false)
    else
      var i := FirstFree(t.cs, 0);
      if i == |t.cs| then (t, true)
      else
        var t' := t.Set(i, t.cs[i].Connect());
        (if i == 0 then t' else t'.(nfds := t.nfds + 1, maxidx := if i > t.maxidx then i else t.maxidx), false)
  }

  /** The first waiter with the number, or the length of the queue. */
  ghost function FirstWith(ws: seq<Waiter>, reqno: nat): (k: nat)
    ensures k <= |ws| && (forall n | 0 <= n < k :: ws[n].reqno != reqno) && (k < |ws| ==> ws[k].reqno == reqno)
  {
    if ws == [] || ws[0].reqno == reqno then 0
    else
      var k := FirstWith(ws[1..], reqno);
      assert forall n | 1 <= n < k + 1 :: ws[n] == ws[1..][n - 1];
      k + 1
  }

  /** The search of the queue in kickwaiter(). */
  method FindWaiter(ws: seq<Waiter>, reqno: nat) returns (k: nat)
    ensures k <= |ws| && (k < |ws| ==> ws[k].reqno == reqno)
    ensures forall n | 0 <= n < k :: ws[n].reqno != reqno
  {
    k := 0;
    while k < |ws| && ws[k].reqno != reqno
      invariant 0 <= k <= |ws|
      invariant forall n | 0 <= n < k :: ws[n].reqno != reqno
    {
      k := k + 1;
    }
  }
}
