/**
 Transmission over whole runs: what the modem was given is what the application sent,
 chunk by chunk, once and in order.
 */
module Transmit {
  import opened Common
  import opened Modem
  import opened Engine
  import opened System

  // ---- the specification: how a transfer is cut ----

  function ChunkCount(n: nat): nat {
    (n + BUFF_SIZE - 1) / BUFF_SIZE
  }

  function ChunkAt(d: seq<byte>, k: nat): seq<byte>
    requires k < ChunkCount(|d|)
  {
    d[BUFF_SIZE * k..Min(BUFF_SIZE * (k + 1), |d|)]
  }

  /** The payloads a transfer of `d` consists of: all of them full, but perhaps the last. */
  function Chunks(d: seq<byte>): (cs: seq<seq<byte>>)
    ensures |cs| == ChunkCount(|d|)
    ensures forall k :: 0 <= k < |cs| ==> cs[k] == ChunkAt(d, k)
  {
    seq(ChunkCount(|d|), k requires 0 <= k < ChunkCount(|d|) => ChunkAt(d, k))
  }

  function Flat(cs: seq<seq<byte>>): seq<byte> {
    if cs == [] then [] else Flat(cs[..|cs| - 1]) + cs[|cs| - 1]
  }

  function AllChunks(ds: seq<seq<byte>>): seq<seq<byte>> {
    if ds == [] then [] else AllChunks(ds[..|ds| - 1]) + Chunks(ds[|ds| - 1])
  }

  lemma {:induction false} FlatAppend(a: seq<seq<byte>>, b: seq<seq<byte>>)
    ensures Flat(a + b) == Flat(a) + Flat(b)
  {
    if b == [] {
      assert a + b == a;
    } else {
      assert (a + b)[..|a + b| - 1] == a + b[..|b| - 1];
      FlatAppend(a, b[..|b| - 1]);
    }
  }

  /** The first `k` chunks carry the first BUFF_SIZE * k bytes. */
  lemma {:induction false} FlatChunks(d: seq<byte>, k: nat)
    requires k <= ChunkCount(|d|)
    ensures Flat(Chunks(d)[..k]) == d[..Min(BUFF_SIZE * k, |d|)]
  {
    if k > 0 {
      FlatChunks(d, k - 1);
      assert Chunks(d)[..k][..k - 1] == Chunks(d)[..k - 1];
    }
  }

  /** Nothing is lost or repeated by the cutting. */
  lemma FlatWhole(d: seq<byte>)
    ensures Flat(Chunks(d)) == d
  {
    var n := ChunkCount(|d|);
    FlatChunks(d, n);
    assert Chunks(d)[..n] == Chunks(d);
  }

  /** Every payload but the last is full, and the last is not empty. */
  lemma ChunkShape(d: seq<byte>)
    requires d != []
    ensures var cs := Chunks(d);
      && |d| <= BUFF_SIZE * |cs| < |d| + BUFF_SIZE && Flat(cs) == d
      && (forall k :: 0 <= k < |cs| - 1 ==> |cs[k]| == BUFF_SIZE)
      && 0 < |cs[|cs| - 1]| <= BUFF_SIZE
  {
    FlatWhole(d);
  }

  lemma {:induction false} FlatAllChunks(ds: seq<seq<byte>>)
    ensures Flat(AllChunks(ds)) == Flat(ds)
  {
    if ds != [] {
      var front, d := ds[..|ds| - 1], ds[|ds| - 1];
      FlatAllChunks(front);
      FlatAppend(AllChunks(front), Chunks(d));
      FlatWhole(d);
    }
  }

  function Sizes(ds: seq<seq<byte>>): (r: seq<int>)
    ensures |r| == |ds| && forall j :: 0 <= j < |r| ==> r[j] == ToInt32(|ds[j]|)
  {
    seq(|ds|, j requires 0 <= j < |ds| => ToInt32(|ds[j]|))
  }

  // ---- the invariant of one live socket ----

  /** The transfers already reported to the application. */
  function Done(s: Slot, h: Hist): seq<seq<byte>> {
    if s.tx.state == TxIdle || h.started == [] then h.started else h.started[..|h.started| - 1]
  }

  /** How many chunks of the transfer in flight the modem was given. */
  function ChunksSent(t: Tx): nat {
    ChunkCount(t.totalSent)
  }

  ghost predicate InFlight(t: Tx, h: Hist) {
    && h.started != []
    && t.data == h.started[|h.started| - 1]
    && t.origSize == |t.data| < 0x1_0000_0000
  }

  ghost predicate TxInv(s: Slot, h: Hist) {
    var t := s.tx;
    && (forall j :: 0 <= j < |h.started| ==> 0 < |h.started[j]| < 0x1_0000_0000)
    && h.returned == Sizes(Done(s, h))
    && match t.state
       case TxIdle => s.out.wire == AllChunks(h.started)
       case TxActive =>
         && InFlight(t, h) && Attempt(t, s.out, Done(s, h))
       case TxComplete =>
         && InFlight(t, h) && t.totalSent == t.origSize
         && s.out.wire == AllChunks(h.started)
       case _ => false
  }

  /** How many answers of BG96::send were wrong. */
  function Lies(rs: seq<SendReply>): nat {
    if rs == [] then 0 else Lies(rs[..|rs| - 1]) + if Honest(rs[|rs| - 1]) then 0 else 1
  }

  /** What the driver believes was sent and what the modem accepted. */
  ghost predicate AirInv(w: Outbound) {
    && |w.wire| == |w.air| + Lies(w.replies)
    && (Lies(w.replies) == 0 ==> w.air == w.wire)
  }

  /** A transfer set up after those in `done`: the modem was given all of them and the first
      chunks of this one, and the pointer stands at the next. */
  ghost predicate Attempt(t: Tx, w: Outbound, done: seq<seq<byte>>) {
    && TxReady(t) && t.totalSent % BUFF_SIZE == 0
    && w.wire == AllChunks(done) + Chunks(t.data)[..ChunksSent(t)]
  }

  lemma NextChunk(d: seq<byte>, total: nat)
    requires total % BUFF_SIZE == 0 && total < |d|
    ensures var k, req := ChunkCount(total), Min(|d| - total, BUFF_SIZE);
      && total == BUFF_SIZE * k && k < ChunkCount(|d|) && ChunkCount(total + req) == k + 1
      && ChunkAt(d, k) == d[total..total + req]
      && (total + req == |d| ==> k + 1 == ChunkCount(|d|))
      && (total + req < |d| ==> (total + req) % BUFF_SIZE == 0)
      && Chunks(d)[..k] + [d[total..total + req]] == Chunks(d)[..k + 1]
  {
  }

  /** One call of tx_event advances by exactly the next chunk, or not at all. */
  lemma {:induction false} Attempted(t: Tx, w: Outbound, done: seq<seq<byte>>, r: SendReply)
    requires Attempt(t, w, done)
    ensures var e := TxEvent(t, w, r);
      && e.tx.data == t.data && e.tx.origSize == t.origSize
      && (!Claims(r) ==> e.more && e.tx == t && e.out.wire == w.wire)
      && (Claims(r) ==> ChunksSent(e.tx) == ChunksSent(t) + 1)
      && (e.more ==> e.tx.state == t.state && Attempt(e.tx, e.out, done))
      && (!e.more ==> e.tx.totalSent == t.origSize && e.out.wire == AllChunks(done + [t.data])
                      && e.tx.state == if t.callback then TxDocb else TxComplete)
  {
    var e := TxEvent(t, w, r);
    var cs, k := Chunks(t.data), ChunksSent(t);
    NextChunk(t.data, t.totalSent);
    if Claims(r) {
      assert e.out.wire == AllChunks(done) + cs[..k + 1];
      if !e.more {
        assert (done + [t.data])[..|done|] == done;
        assert cs[..k + 1] == cs;
      }
    }
  }

  lemma AirKept(t: Tx, w: Outbound, r: SendReply)
    requires TxReady(t) && AirInv(w)
    ensures AirInv(TxEvent(t, w, r).out)
  {
    assert (w.replies + [r])[..|w.replies|] == w.replies;
  }

  // ---- it is kept by every event ----

  /** A transfer as socket_send sets it up. */
  lemma FirstAttempt(t: Tx, w: Outbound, done: seq<seq<byte>>)
    requires TxReady(t) && t.totalSent == 0 && w.wire == AllChunks(done)
    ensures Attempt(t, w, done)
  {
    assert Chunks(t.data)[..0] == [];
  }

  /** A transfer that goes on in the background. */
  lemma StartedTx(s: Slot, s': Slot, h: Hist, h': Hist, d: seq<byte>)
    requires TxInv(s, h) && s.tx.state == TxIdle && h' == h.(started := h.started + [d], notify := h'.notify) && 0 < |d|
    requires s'.tx.state == TxActive && s'.tx.data == d && Attempt(s'.tx, s'.out, h.started)
    ensures TxInv(s', h')
  {
    hide AllChunks, Chunks, ChunkCount;
    assert h'.started[..|h.started|] == h.started;
  }

  /** A transfer done and reported at once. */
  lemma FinishedTx(s: Slot, s': Slot, h: Hist, h': Hist, d: seq<byte>)
    requires TxInv(s, h) && s.tx.state == TxIdle && 0 < |d| < 0x1_0000_0000
    requires h' == h.(started := h.started + [d], notify := h'.notify, returned := h.returned + [ToInt32(|d|)])
    requires s'.tx.state == TxIdle && s'.out.wire == AllChunks(h.started + [d])
    ensures TxInv(s', h')
  {
    SizesMore(h.started, d);
    hide AllChunks, Sizes, ToInt32;
  }

  lemma StartKeepsTx(s: Slot, h: Hist, e: Event)
    requires e.Send? && e.size >= 1 && e.data.To? && s.tx.state == TxIdle
    requires Ready(s) && EnabledAt(s, e) && TxInv(s, h)
    ensures TxInv(Act(s, e), Note(s, h, e))
  {
    hide TxEvent, Chunks, AllChunks, Sizes, ToInt32, ChunkCount;
    var d := e.data.bytes[..e.size];
    var t := NewTx(s, d);
    FirstAttempt(t, s.out, h.started);
    Attempted(t, s.out, h.started, e.t);
    if TxEvent(t, s.out, e.t).more {
      StartedTx(s, Act(s, e), h, Note(s, h, e), d);
    } else {
      FinishedTx(s, Act(s, e), h, Note(s, h, e), d);
    }
  }

  lemma SizesMore(ds: seq<seq<byte>>, d: seq<byte>)
    ensures Sizes(ds + [d]) == Sizes(ds) + [ToInt32(|d|)]
  {
  }

  /** A call that reports the transfer finished in the background. */
  lemma ReportKeepsTx(s: Slot, h: Hist)
    requires TxInv(s, h) && s.tx.state == TxComplete
    ensures TxInv(s.(tx := s.tx.(state := TxIdle)), h.(returned := h.returned + [ToInt32(s.tx.totalSent)]))
  {
    hide AllChunks, Sizes, ToInt32;
    var n := |h.started|;
    assert h.started == h.started[..n - 1] + [s.tx.data];
    SizesMore(h.started[..n - 1], s.tx.data);
  }

  lemma SendKeepsTx(s: Slot, h: Hist, e: Event)
    requires e.Send? && Ready(s) && EnabledAt(s, e) && TxInv(s, h)
    ensures TxInv(Act(s, e), Note(s, h, e))
  {
    if e.size >= 1 && e.data.To? {
      if s.tx.state == TxIdle {
        StartKeepsTx(s, h, e);
      } else if s.tx.state == TxComplete {
        hide AllChunks, Sizes, ToInt32;
        ReportKeepsTx(s, h);
      }
    }
  }

  /** The invariant looks at the transmit half and the record of transfers alone. */
  lemma SameTransfers(s: Slot, s': Slot, h: Hist, h': Hist)
    requires TxInv(s, h) && s'.tx == s.tx && s'.out == s.out
    requires h'.started == h.started && h'.returned == h.returned
    ensures TxInv(s', h')
  {
    hide Attempt, AllChunks, Sizes;
    assert Done(s', h') == Done(s, h);
  }

  lemma ActKeepsTx(s: Slot, h: Hist, e: Event)
    requires Local(e) && Ready(s) && EnabledAt(s, e) && TxInv(s, h) && Live(Act(s, e))
    ensures TxInv(Act(s, e), Note(s, h, e))
  {
    hide TxInv;
    if e.Send? {
      SendKeepsTx(s, h, e);
    } else {
      hide Engine.Recv, Note;
      CallHalves(s, e);
      NoteHalves(s, h, e);
      SameTransfers(s, Act(s, e), h, Note(s, h, e));
    }
  }

  lemma ActKeepsAir(s: Slot, e: Event)
    requires Local(e) && Ready(s) && EnabledAt(s, e) && AirInv(s.out)
    ensures AirInv(Act(s, e).out)
  {
    if e.Send? && e.size >= 1 && e.data.To? && s.tx.state == TxIdle {
      AirKept(NewTx(s, e.data.bytes[..e.size]), s.out, e.t);
    }
  }

  lemma ServeKeepsTx(s: Slot, h: Hist, r: RecvReply, t: SendReply, slow: bool)
    requires Ready(s) && TxInv(s, h) && AirInv(s.out)
    ensures TxInv(Serve(s, r, t, slow), h) && AirInv(Serve(s, r, t, slow).out)
  {
    ServeHalves(s, r, t, slow);
    if s.tx.state == TxActive {
      Attempted(s.tx, s.out, Done(s, h), t);
      AirKept(s.tx, s.out, t);
      assert Done(s, h) + [s.tx.data] == h.started;
    }
  }

  /** Every live socket of a system. */
  ghost predicate AllTx(s: Sys)
    requires Shaped(s)
  {
    forall i :: 0 <= i < SOCKETS && Live(s.slots[i]) ==> TxInv(s.slots[i], s.hists[i]) && AirInv(s.slots[i].out)
  }

  lemma NextKeepsTxAt(s: Sys, e: Event, i: nat)
    requires Shaped(s) && Enabled(s, e) && AllTx(s) && i < SOCKETS && Live(Next(s, e).slots[i])
    ensures TxInv(Next(s, e).slots[i], Next(s, e).hists[i]) && AirInv(Next(s, e).slots[i].out)
  {
    if e.Dispatch? {
      DispatchAt(s.slots, e.a, i);
      ServeKeepsTx(s.slots[i], s.hists[i], e.a.rx[i], e.a.tx[i], SlowAt(s.slots, e.a, i));
    } else if Local(e) && e.i == i {
      ActKeepsTx(s.slots[i], s.hists[i], e);
      ActKeepsAir(s.slots[i], e);
    }
  }

  lemma NextKeepsTx(s: Sys, e: Event)
    requires Shaped(s) && Enabled(s, e) && AllTx(s)
    ensures AllTx(Next(s, e))
  {
    forall i | 0 <= i < SOCKETS && Live(Next(s, e).slots[i])
      ensures TxInv(Next(s, e).slots[i], Next(s, e).hists[i]) && AirInv(Next(s, e).slots[i].out)
    {
      NextKeepsTxAt(s, e, i);
    }
  }

  lemma {:induction false} RunKeepsTx(s: Sys, es: seq<Event>)
    requires Shaped(s) && Possible(s, es) && AllTx(s)
    ensures AllTx(After(s, es))
    decreases |es|
  {
    if es != [] {
      NextKeepsTx(s, es[0]);
      RunKeepsTx(Next(s, es[0]), es[1..]);
    }
  }

  // ---- the results ----

  /**
   Exactly once, in order. At every point of every run, on every live socket: the payloads
   for which BG96::send answered true are all the chunks of the transfers already reported,
   then the first chunks of the transfer in flight; each reported transfer was reported by
   exactly one call, with its size.
   */
  lemma ExactlyOnce(s0: Sys, es: seq<Event>, i: nat)
    requires Initial(s0) && Possible(s0, es) && i < SOCKETS && Live(After(s0, es).slots[i])
    ensures var s := After(s0, es).slots[i]; var h := After(s0, es).hists[i]; var n := |h.returned|;
      && (s.tx.state == TxIdle || s.tx.state == TxActive || s.tx.state == TxComplete)
      && |h.started| == (if s.tx.state == TxIdle then n else n + 1)
      && h.returned == Sizes(h.started[..n])
      && (s.tx.state == TxIdle ==> s.out.wire == AllChunks(h.started) && Flat(s.out.wire) == Flat(h.started))
      && (s.tx.state != TxIdle ==>
            && s.tx.data == h.started[n] && s.tx.totalSent <= |h.started[n]|
            && s.out.wire == AllChunks(h.started[..n]) + Chunks(h.started[n])[..ChunksSent(s.tx)]
            && Flat(s.out.wire) == Flat(h.started[..n]) + h.started[n][..s.tx.totalSent])
      && (s.tx.state == TxComplete ==> s.tx.totalSent == |h.started[n]|)
      && (s.tx.state == TxActive ==> TxReady(s.tx) && 0 < s.tx.reqSize)
  {
    RunKeepsTx(s0, es);
    Delivered(After(s0, es).slots[i], After(s0, es).hists[i]);
  }

  lemma Delivered(s: Slot, h: Hist)
    requires TxInv(s, h)
    ensures var n := |h.returned|;
      && |h.started| == (if s.tx.state == TxIdle then n else n + 1)
      && h.returned == Sizes(h.started[..n])
      && (s.tx.state == TxIdle ==> h.started[..n] == h.started && Flat(s.out.wire) == Flat(h.started))
      && (s.tx.state != TxIdle ==>
            && s.tx.data == h.started[n] && s.tx.totalSent <= |h.started[n]|
            && ChunksSent(s.tx) <= ChunkCount(|h.started[n]|)
            && s.out.wire == AllChunks(h.started[..n]) + Chunks(h.started[n])[..ChunksSent(s.tx)]
            && Flat(s.out.wire) == Flat(h.started[..n]) + h.started[n][..s.tx.totalSent])
  {
    var n := |h.returned|;
    if s.tx.state == TxIdle {
      FlatAllChunks(h.started);
      assert h.started[..|h.started|] == h.started;
    } else {
      var d, k := s.tx.data, ChunksSent(s.tx);
      assert Done(s, h) == h.started[..n] && h.started[n] == d;
      FlatAllChunks(h.started[..n]);
      FlatAppend(AllChunks(h.started[..n]), Chunks(d)[..k]);
      FlatChunks(d, k);
      if s.tx.state == TxComplete {
        assert Chunks(d)[..k] == Chunks(d);
      } else {
        NextChunk(d, s.tx.totalSent);
      }
    }
  }

  /** The uint32_t total survives the conversion to the int result exactly up to INT_MAX. */
  lemma ReportedValue(n: nat)
    requires n < 0x1_0000_0000
    ensures ToInt32(n) == n <==> n < 0x8000_0000
    ensures ToInt32(n) != n ==> -0x8000_0000 <= ToInt32(n) < 0
  {
  }

  /** No socket_close of socket `i`. */
  ghost predicate KeptOpen(es: seq<Event>, i: nat) {
    forall k :: 0 <= k < |es| ==> !(es[k].Close? && es[k].i == i)
  }

  /** The positive value a socket_send call on `i` returns, if this is one. */
  ghost function PositiveReturn(s: Sys, e: Event, i: nat): seq<int>
    requires Shaped(s) && Enabled(s, e) && i < SOCKETS
  {
    if e.Send? && e.i == i && ReturnOf(s, e) > 0 then [ReturnOf(s, e)] else []
  }

  /** The positive values the socket_send calls on `i` return, in order. */
  ghost function PositiveReturns(s: Sys, es: seq<Event>, i: nat): seq<int>
    requires Shaped(s) && Possible(s, es) && i < SOCKETS
    decreases |es|
  {
    if es == [] then []
    else PositiveReturn(s, es[0], i) + PositiveReturns(Next(s, es[0]), es[1..], i)
  }

  function ReturnOf(s: Sys, e: Event): int
    requires e.Send? && e.i < |s.slots| && Ready(s.slots[e.i]) && EnabledAt(s.slots[e.i], e)
  {
    Engine.Send(s.slots[e.i], e.data, e.size, e.t).ret
  }

  function Positives(xs: seq<int>): seq<int> {
    if xs == [] then []
    else Positives(xs[..|xs| - 1]) + if xs[|xs| - 1] > 0 then [xs[|xs| - 1]] else []
  }

  /** A call returns a positive value only when it reports a transfer, which then is the newest
      report; and the call that reports an earlier transfer sends nothing. */
  lemma PositiveMeansReported(s: Slot, h: Hist, e: Event)
    requires e.Send? && Ready(s) && EnabledAt(s, e) && TxInv(s, h)
    ensures var ret := Engine.Send(s, e.data, e.size, e.t).ret; var h' := Note(s, h, e);
      && (if h'.returned == h.returned then ret <= 0 else h'.returned == h.returned + [ret])
      && Positives(h'.returned) == Positives(h.returned) + (if ret > 0 then [ret] else [])
      && (s.tx.state == TxComplete ==> h'.started == h.started && Act(s, e).out == s.out)
  {
    var ret := Engine.Send(s, e.data, e.size, e.t).ret;
    assert (h.returned + [ret])[..|h.returned|] == h.returned;
  }

  lemma StepReturns(s: Sys, e: Event, i: nat)
    requires Shaped(s) && Enabled(s, e) && AllTx(s)
    requires i < SOCKETS && Live(s.slots[i]) && !(e.Close? && e.i == i)
    ensures var s' := Next(s, e);
      && Live(s'.slots[i]) && s.hists[i].returned <= s'.hists[i].returned
      && Positives(s'.hists[i].returned) == Positives(s.hists[i].returned) + PositiveReturn(s, e, i)
  {
    hide TxInv, Serve, VisitSlot, Positives;
    if Local(e) && e.i == i {
      LocalReturns(s.slots[i], s.hists[i], e);
    } else if e.Dispatch? {
      DispatchAt(s.slots, e.a, i);
      ServeHalves(s.slots[i], e.a.rx[i], e.a.tx[i], SlowAt(s.slots, e.a, i));
    }
  }

  lemma LocalReturns(s: Slot, h: Hist, e: Event)
    requires Local(e) && Ready(s) && EnabledAt(s, e) && TxInv(s, h) && Live(s) && !e.Close?
    ensures var h' := Note(s, h, e);
      && Live(Act(s, e)) && h.returned <= h'.returned
      && Positives(h'.returned) == Positives(h.returned) +
           if e.Send? && Engine.Send(s, e.data, e.size, e.t).ret > 0
           then [Engine.Send(s, e.data, e.size, e.t).ret] else []
  {
    hide Positives;
    CallHalves(s, e);
    if e.Send? {
      PositiveMeansReported(s, h, e);
    }
  }

  lemma {:induction false} RunReturns(s: Sys, es: seq<Event>, i: nat)
    requires Shaped(s) && Possible(s, es) && AllTx(s)
    requires i < SOCKETS && Live(s.slots[i]) && KeptOpen(es, i)
    ensures var s' := After(s, es);
      && Live(s'.slots[i]) && s.hists[i].returned <= s'.hists[i].returned
      && Positives(s'.hists[i].returned) == Positives(s.hists[i].returned) + PositiveReturns(s, es, i)
    decreases |es|
  {
    hide Next, AllTx, PositiveReturn, Live, Positives;
    if es != [] {
      StepReturns(s, es[0], i);
      NextKeepsTx(s, es[0]);
      RunReturns(Next(s, es[0]), es[1..], i);
    }
  }

  function Sum(xs: seq<int>): int {
    if xs == [] then 0 else Sum(xs[..|xs| - 1]) + xs[|xs| - 1]
  }

  lemma {:induction false} SumAppend(a: seq<int>, b: seq<int>)
    ensures Sum(a + b) == Sum(a) + Sum(b)
  {
    if b == [] {
      assert a + b == a;
    } else {
      assert (a + b)[..|a + b| - 1] == a + b[..|b| - 1];
      SumAppend(a, b[..|b| - 1]);
    }
  }

  /** What the totals were that came back negative. */
  function Wrapped(xs: seq<int>): int {
    if xs == [] then 0
    else Wrapped(xs[..|xs| - 1]) + if xs[|xs| - 1] < 0 then xs[|xs| - 1] + 0x1_0000_0000 else 0
  }

  lemma {:induction false} SumSizes(ds: seq<seq<byte>>)
    requires forall j :: 0 <= j < |ds| ==> |ds[j]| < 0x1_0000_0000
    ensures Sum(Positives(Sizes(ds))) + Wrapped(Sizes(ds)) == |Flat(ds)|
  {
    if ds != [] {
      var front, n := ds[..|ds| - 1], |ds[|ds| - 1]|;
      SumSizes(front);
      SizesMore(front, ds[|ds| - 1]);
      assert ds == front + [ds[|ds| - 1]];
      OneMoreTotal(Sizes(front), n);
      hide Sizes, Positives, Wrapped, Sum, ToInt32;
    }
  }

  lemma OneMoreTotal(xs: seq<int>, n: nat)
    requires n < 0x1_0000_0000
    ensures var ys := xs + [ToInt32(n)];
      Sum(Positives(ys)) + Wrapped(ys) == Sum(Positives(xs)) + Wrapped(xs) + n
  {
    var x := ToInt32(n);
    assert (xs + [x])[..|xs|] == xs;
    SumAppend(Positives(xs), if x > 0 then [x] else []);
  }

  lemma {:induction false} NothingWrapped(xs: seq<int>, n: nat)
    requires n <= |xs| && forall j :: 0 <= j < |xs| ==> xs[j] >= -0x8000_0000
    ensures Wrapped(xs[..n]) <= Wrapped(xs)
    ensures Wrapped(xs[..n]) == Wrapped(xs) <==> forall j :: n <= j < |xs| ==> xs[j] >= 0
  {
    if n < |xs| {
      NothingWrapped(xs[..|xs| - 1], n);
      assert xs[..|xs| - 1][..n] == xs[..n];
    } else {
      assert xs[..n] == xs;
    }
  }

  /** Bytes of the transfer not yet reported. */
  function Unreported(t: Tx): nat {
    if t.state == TxActive || t.state == TxComplete then t.totalSent else 0
  }

  lemma Balance(s: Slot, h: Hist)
    requires TxInv(s, h)
    ensures |Flat(s.out.wire)| == Sum(Positives(h.returned)) + Wrapped(h.returned) + Unreported(s.tx)
  {
    Delivered(s, h);
    SumSizes(h.started[..|h.returned|]);
  }

  /** Between `s` and `s'` the modem took as many bytes as the calls returned, plus what is still
      to be reported at the end, minus what was still to be reported at the start. */
  ghost predicate Conserved(s: Sys, s': Sys, i: nat, returned: seq<int>)
    requires Shaped(s) && Shaped(s') && i < SOCKETS
  {
    |Flat(s'.slots[i].out.wire)| + Unreported(s.slots[i].tx) ==
    |Flat(s.slots[i].out.wire)| + Sum(returned) + Unreported(s'.slots[i].tx)
  }

  /** Conservation, over any stretch of any run in which the socket is not closed: it holds
      exactly when every total reported in the stretch fits the int it is returned as. */
  lemma {:induction false} Conservation(s0: Sys, before: seq<Event>, es: seq<Event>, i: nat)
    requires Initial(s0) && Possible(s0, before) && Possible(After(s0, before), es)
    requires i < SOCKETS && Live(After(s0, before).slots[i]) && KeptOpen(es, i)
    ensures var s := After(s0, before); var s' := After(s, es);
      Conserved(s, s', i, PositiveReturns(s, es, i)) <==> ReportsFit(s.hists[i], s'.hists[i])
  {
    hide Next;
    var s := After(s0, before);
    var s' := After(s, es);
    RunKeepsTx(s0, before);
    RunKeepsTx(s, es);
    RunReturns(s, es, i);
    Balance(s.slots[i], s.hists[i]);
    Balance(s'.slots[i], s'.hists[i]);
    SumAppend(Positives(s.hists[i].returned), PositiveReturns(s, es, i));
    ReportsFitExactly(s'.slots[i], s.hists[i], s'.hists[i]);
  }

  /** Every transfer of `h'` reported since `h` is small enough for its total to be returned. */
  ghost predicate ReportsFit(h: Hist, h': Hist) {
    forall j :: |h.returned| <= j < |h'.returned| && j < |h'.started| ==> |h'.started[j]| < 0x8000_0000
  }

  lemma WrappedExactly(ds: seq<seq<byte>>, xs: seq<int>, front: seq<int>)
    requires |xs| <= |ds| && forall j :: 0 <= j < |ds| ==> |ds[j]| < 0x1_0000_0000
    requires xs == Sizes(ds[..|xs|]) && front <= xs
    ensures Wrapped(front) == Wrapped(xs) <==> forall j :: |front| <= j < |xs| ==> |ds[j]| < 0x8000_0000
  {
    hide Wrapped, ToInt32;
    forall j | 0 <= j < |xs| ensures xs[j] >= -0x8000_0000 && (xs[j] >= 0 <==> |ds[j]| < 0x8000_0000) {
      assert xs[j] == ToInt32(|ds[j]|);
      ReportedValue(|ds[j]|);
    }
    NothingWrapped(xs, |front|);
    assert xs[..|front|] == front;
  }

  lemma ReportsFitExactly(s': Slot, h: Hist, h': Hist)
    requires TxInv(s', h') && h.returned <= h'.returned
    ensures Wrapped(h.returned) == Wrapped(h'.returned) <==> ReportsFit(h, h')
  {
    Delivered(s', h');
    WrappedExactly(h'.started, h'.returned, h.returned);
  }

  lemma {:induction false} NoLies(rs: seq<SendReply>)
    ensures Lies(rs) == 0 <==> forall r :: r in rs ==> Honest(r)
  {
    if rs != [] {
      NoLies(rs[..|rs| - 1]);
      assert rs == rs[..|rs| - 1] + [rs[|rs| - 1]];
    }
  }

  /** What the modem accepted is what the driver believes, exactly when every exchange took a
      branch on which BG96::send tells the truth. */
  lemma AirExactlyWhenHonest(s0: Sys, es: seq<Event>, i: nat)
    requires Initial(s0) && Possible(s0, es) && i < SOCKETS && Live(After(s0, es).slots[i])
    ensures var w := After(s0, es).slots[i].out;
      w.air == w.wire <==> forall r :: r in w.replies ==> Honest(r)
  {
    RunKeepsTx(s0, es);
    NoLies(After(s0, es).slots[i].out.replies);
  }
}
