/**
 When reads are laid out as the bytes were delivered, on any socket, listening or not: exactly
 when no background poll ever disturbs it. The engine never looks at the bytes, so a
 disturbance always shows for some contents of the stream.
 */
module Layout {
  import opened Common
  import opened Modem
  import opened Engine
  import opened System
  import opened Receive

  /** What was reported and what waits, in order, is what was delivered; and what waits is in the
      buffer, and within the size, given to the call that started the read. */
  ghost predicate LaidOut(s: Slot, h: Hist) {
    Live(s) ==>
      && Bytes(h.received) + Waiting(s) == s.inb.delivered
      && (s.rx.state == DataAvailable ==> s.rx.dptr == h.asked.buf && s.rx.returnCnt <= h.asked.size)
  }

  /** At every point of the run. */
  ghost predicate AlwaysLaidOut(s: Sys, es: seq<Event>, i: nat)
    requires Shaped(s) && Possible(s, es) && i < SOCKETS
    decreases |es|
  {
    LaidOut(s.slots[i], s.hists[i]) && (es == [] || AlwaysLaidOut(Next(s, es[0]), es[1..], i))
  }

  lemma {:induction false} UndisturbedIsLaidOut(s: Sys, es: seq<Event>, i: nat)
    requires Shaped(s) && Possible(s, es) && i < SOCKETS && Undisturbed(s, es, i)
    requires LiveRx(s.slots[i], s.hists[i])
    ensures AlwaysLaidOut(s, es, i)
    decreases |es|
  {
    if es != [] {
      NextKeepsRx(s, es[0], i);
      UndisturbedIsLaidOut(Next(s, es[0]), es[1..], i);
    }
  }

  // ---- runs that differ in bytes only ----

  predicate AlikeIn(w: Inbound, v: Inbound) {
    && |w.stream| == |v.stream| && w.taken == v.taken && |w.delivered| == |v.delivered|
    && w.lost == v.lost && w.polls == v.polls && w.calls == v.calls
    && w.mem.Keys == v.mem.Keys && forall p :: p in w.mem ==> |w.mem[p]| == |v.mem[p]|
  }

  predicate Alike(a: Slot, b: Slot) {
    a.sock == b.sock && a.tx == b.tx && a.out == b.out && a.rx == b.rx && AlikeIn(a.inb, b.inb)
  }

  ghost predicate AllAlike(s: Sys, t: Sys) {
    Shaped(s) && Shaped(t) && forall i :: 0 <= i < SOCKETS ==> Alike(s.slots[i], t.slots[i])
  }

  /** The same event, but for the bytes that arrive or that a buffer is set up with. */
  predicate SameButBytes(e: Event, e': Event) {
    match e
    case Arrive(i, bytes) => e'.Arrive? && e'.i == i && |e'.bytes| == |bytes|
    case Provide(i, buf, content) => e'.Provide? && e'.i == i && e'.buf == buf && |e'.content| == |content|
    case _ => e' == e
  }

  predicate AlikeRuns(es: seq<Event>, es': seq<Event>) {
    |es| == |es'| && forall k :: 0 <= k < |es| ==> SameButBytes(es[k], es'[k])
  }

  lemma AlikeRxEvent(x: Rx, w: Inbound, v: Inbound, r: RecvReply)
    requires AlikeIn(w, v) && RxReady(x, w)
    ensures RxReady(x, v) && Moved(w, r, x.reqSize) == Moved(v, r, x.reqSize)
    ensures var e, f := RxEvent(x, w, r), RxEvent(x, v, r);
      e.rx == f.rx && e.more == f.more && AlikeIn(e.inb, f.inb)
  {
    AlikeReceived(w, v, r, x.dptr, x.reqSize);
    hide Received;
  }

  lemma AlikeReceived(w: Inbound, v: Inbound, r: RecvReply, p: nat, cnt: nat)
    requires AlikeIn(w, v) && w.taken <= |w.stream| && p in w.mem && cnt <= |w.mem[p]|
    ensures Moved(w, r, cnt) == Moved(v, r, cnt) && AlikeIn(Received(w, r, p, cnt), Received(v, r, p, cnt))
  {
    hide PollOf;
  }

  lemma {:induction false} AlikeCleared(w: Inbound, v: Inbound, rs: seq<RecvReply>)
    requires AlikeIn(w, v) && w.taken <= |w.stream|
    ensures (Clears(w, rs) <==> Clears(v, rs)) && AlikeIn(Cleared(w, rs), Cleared(v, rs))
    decreases |rs|
  {
    if rs != [] {
      AlikeCleared(Discarded(w, rs[0]), Discarded(v, rs[0]), rs[1..]);
    }
  }

  lemma AlikeRecv(a: Slot, b: Slot, buf: Buffer, size: nat, r: RecvReply)
    requires Alike(a, b) && Ready(a) && Ready(b) && size < 0x1_0000_0000 && Fits(a, buf, size)
    ensures Fits(b, buf, size) && Alike(Engine.Recv(a, buf, size, r).slot, Engine.Recv(b, buf, size, r).slot)
  {
    if size >= 1 && buf.At? && a.rx.state == ReadStart {
      AlikeRxEvent(NewRx(a, buf.buf, size), a.inb.(polls := []), b.inb.(polls := []), r);
      hide RxEvent;
    }
  }

  lemma AlikeAct(a: Slot, b: Slot, e: Event, e': Event)
    requires Alike(a, b) && Ready(a) && Ready(b) && Local(e) && SameButBytes(e, e') && EnabledAt(a, e)
    ensures Local(e') && EnabledAt(b, e') && Alike(Act(a, e), Act(b, e'))
  {
    hide Engine.Recv, Engine.Send;
    match e
    case Connect(_, opens, residue) => AlikeCleared(a.inb, b.inb, residue);
    case Send(_, data, size, t) => AlikeSend(a, b, data, size, t);
    case Recv(_, buf, size, r) => AlikeRecv(a, b, buf, size, r);
    case _ =>
  }

  lemma AlikeSend(a: Slot, b: Slot, data: Pointer, size: nat, t: SendReply)
    requires Alike(a, b) && Ready(a) && Ready(b) && size < 0x1_0000_0000 && (data.To? ==> size <= |data.bytes|)
    ensures Alike(Engine.Send(a, data, size, t).slot, Engine.Send(b, data, size, t).slot)
  {
  }

  lemma AlikeServe(a: Slot, b: Slot, r: RecvReply, t: SendReply, slow: bool)
    requires Alike(a, b) && Ready(a) && Ready(b)
    ensures Alike(Serve(a, r, t, slow), Serve(b, r, t, slow))
    ensures VisitSlot(a, r, t, slow).slow == VisitSlot(b, r, t, slow).slow
  {
    AlikeSlowedRx(a, b, r, slow);
    hide SlowedRx, SlowAfterRx, TxEvent, AlikeIn, Polled;
  }

  lemma AlikeSlowedRx(a: Slot, b: Slot, r: RecvReply, slow: bool)
    requires Alike(a, b) && Ready(a) && Ready(b)
    ensures var x, y := SlowedRx(a, r, slow), SlowedRx(b, r, slow);
      x.rx == y.rx && x.more == y.more && AlikeIn(x.inb, y.inb)
    ensures SlowAfterRx(a, r, slow) == SlowAfterRx(b, r, slow)
  {
    if Polled(a) {
      AlikeRxEvent(a.rx, a.inb, b.inb, r);
    }
    hide RxEvent, RxReady, TxReady;
  }

  lemma {:induction false} AlikeSlow(s: Sys, t: Sys, a: Answers, n: nat)
    requires AllAlike(s, t) && a.Full() && n <= SOCKETS
    ensures SlowAt(s.slots, a, n) == SlowAt(t.slots, a, n)
  {
    if n > 0 {
      var m := n - 1;
      AlikeSlow(s, t, a, m);
      FirstLoopStep(s.slots, a, m);
      FirstLoopStep(t.slots, a, m);
      AlikeServe(s.slots[m], t.slots[m], a.rx[m], a.tx[m], SlowAt(s.slots, a, m));
      hide FirstLoop, VisitSlot, Alike;
    }
  }

  lemma AlikeNext(s: Sys, t: Sys, e: Event, e': Event)
    requires AllAlike(s, t) && Enabled(s, e) && SameButBytes(e, e')
    ensures Enabled(t, e') && AllAlike(Next(s, e), Next(t, e'))
  {
    if Local(e) {
      AlikeAct(s.slots[e.i], t.slots[e.i], e, e');
    }
    hide Act, EnabledAt;
    NextIs(s, e);
    NextIs(t, e');
    hide Next;
    if e.Open? {
      SameFirstFree(s.slots, t.slots, 0);
    }
    forall i | 0 <= i < SOCKETS ensures Alike(Next(s, e).slots[i], Next(t, e').slots[i]) {
      if e.Dispatch? {
        AlikePass(s, t, e.a, i);
      }
    }
  }

  lemma AlikePass(s: Sys, t: Sys, a: Answers, i: nat)
    requires AllAlike(s, t) && a.Full() && i < SOCKETS
    ensures Alike(Engine.Dispatch(s.slots, a).slots[i], Engine.Dispatch(t.slots, a).slots[i])
  {
    DispatchAt(s.slots, a, i);
    DispatchAt(t.slots, a, i);
    AlikeSlow(s, t, a, i);
    AlikeServe(s.slots[i], t.slots[i], a.rx[i], a.tx[i], SlowAt(s.slots, a, i));
  }

  lemma {:induction false} SameFirstFree(a: seq<Slot>, b: seq<Slot>, from: nat)
    requires from <= |a| == |b| && forall k :: 0 <= k < |a| ==> Alike(a[k], b[k])
    ensures FirstFree(a, from) == FirstFree(b, from)
    decreases |a| - from
  {
    if from < |a| {
      SameFirstFree(a, b, from + 1);
    }
  }

  lemma AlikeDisturbs(s: Sys, t: Sys, e: Event, e': Event, i: nat)
    requires AllAlike(s, t) && Enabled(s, e) && Enabled(t, e') && SameButBytes(e, e') && i < SOCKETS
    ensures Disturbs(s, e, i) == Disturbs(t, e', i)
  {
    assert Alike(s.slots[i], t.slots[i]);
  }

  /** The bytes do not matter to what happens. */
  lemma {:induction false} AlikeRun(s: Sys, t: Sys, es: seq<Event>, es': seq<Event>, i: nat)
    requires AllAlike(s, t) && Possible(s, es) && AlikeRuns(es, es') && i < SOCKETS
    ensures Possible(t, es') && (Undisturbed(s, es, i) <==> Undisturbed(t, es', i))
    decreases |es|
  {
    hide Next, Enabled, Disturbs, AllAlike;
    if es != [] {
      assert SameButBytes(es[0], es'[0]);
      assert Shaped(s) && Shaped(t) by { AlikeShaped(s, t); }
      AlikeNext(s, t, es[0], es'[0]);
      AlikeDisturbs(s, t, es[0], es'[0], i);
      AlikeRun(Next(s, es[0]), Next(t, es'[0]), es[1..], es'[1..], i);
    } else {
      AlikeShaped(s, t);
    }
  }

  lemma AlikeShaped(s: Sys, t: Sys)
    requires AllAlike(s, t)
    ensures Shaped(s) && Shaped(t)
  {
  }

  // ---- contents that show a disturbance ----

  /** Byte number `k` of the stream: 0 before number `limit`, 1 from there on. */
  function Colour(k: nat, limit: nat): byte {
    if k < limit then 0 else 1
  }

  /** The event with what arrives on slot `i` coloured. */
  function Paint(s: Sys, e: Event, i: nat, limit: nat): Event
    requires i < |s.slots|
  {
    if e.Arrive? && e.i == i then
      Arrive(i, seq(|e.bytes|, k requires 0 <= k < |e.bytes| => Colour(|s.slots[i].inb.stream| + k, limit)))
    else e
  }

  ghost function Painted(s: Sys, es: seq<Event>, i: nat, limit: nat): (es': seq<Event>)
    requires Shaped(s) && Possible(s, es) && i < SOCKETS
    ensures |es'| == |es|
    decreases |es|
  {
    if es == [] then []
    else [Paint(s, es[0], i, limit)] + Painted(Next(s, es[0]), es[1..], i, limit)
  }

  predicate Coloured(s: Slot, limit: nat) {
    Live(s) ==>
      && (forall k :: 0 <= k < |s.inb.stream| ==> s.inb.stream[k] == Colour(k, limit))
      && (s.inb.taken <= limit ==> forall k :: 0 <= k < |s.inb.delivered| ==> s.inb.delivered[k] == 0)
  }

  lemma RxEventColoured(s: Slot, x: Rx, w: Inbound, r: RecvReply, limit: nat)
    requires Coloured(s, limit) && RxReady(x, w) && w == s.inb.(polls := w.polls)
    ensures Coloured(s.(inb := RxEvent(x, w, r).inb), limit)
    ensures RxEvent(x, w, r).inb.taken >= s.inb.taken
  {
  }

  lemma ServeColoured(s: Slot, r: RecvReply, t: SendReply, slow: bool, limit: nat)
    requires Coloured(s, limit) && Ready(s)
    ensures Coloured(Serve(s, r, t, slow), limit)
  {
    ServeHalves(s, r, t, slow);
    if Polled(s) {
      RxEventColoured(s, s.rx, s.inb, r, limit);
    }
    hide Serve, TxHalf, RxEvent, RxReady, TxReady;
  }

  lemma ActColoured(s: Slot, e: Event, limit: nat)
    requires Coloured(s, limit) && Local(e) && Ready(s) && EnabledAt(s, e)
    requires e.Arrive? ==> forall k :: 0 <= k < |e.bytes| ==> e.bytes[k] == Colour(|s.inb.stream| + k, limit)
    ensures Coloured(Act(s, e), limit)
  {
    CallHalves(s, e);
    if e.Recv? {
      RecvColoured(s, e, limit);
    }
  }

  lemma RecvColoured(s: Slot, e: Event, limit: nat)
    requires Coloured(s, limit) && e.Recv? && Ready(s) && EnabledAt(s, e)
    ensures Coloured(Act(s, e), limit)
  {
    if e.size >= 1 && e.b.At? && s.rx.state == ReadStart {
      RxEventColoured(s, NewRx(s, e.b.buf, e.size), s.inb.(polls := []), e.r, limit);
      hide RxEvent;
    }
  }

  lemma NextColoured(s: Sys, t: Sys, e: Event, i: nat, limit: nat)
    requires AllAlike(s, t) && i < SOCKETS && Coloured(t.slots[i], limit)
    requires Enabled(t, Paint(s, e, i, limit))
    ensures Coloured(Next(t, Paint(s, e, i, limit)).slots[i], limit)
  {
    var e' := Paint(s, e, i, limit);
    NextIs(t, e');
    assert Alike(s.slots[i], t.slots[i]);
    hide Next, Act, Serve, AllAlike;
    if e'.Dispatch? {
      DispatchAt(t.slots, e'.a, i);
      ServeColoured(t.slots[i], e'.a.rx[i], e'.a.tx[i], SlowAt(t.slots, e'.a, i), limit);
    } else if Local(e') && e'.i == i {
      ActColoured(t.slots[i], e', limit);
    }
  }

  lemma WaitingBytes(s: Slot, h: Hist)
    requires RxInv(s, h) && s.rx.state == DataAvailable
    ensures |Waiting(s)| == s.rx.returnCnt
    ensures s.rx.disTO ==> s.rx.returnCnt >= 1
    ensures s.inb.delivered == Bytes(h.received) + Waiting(s)
  {
  }

  /** A poll that moves bytes while no read is in progress. */
  lemma UnaskedPoll(x: Rx, w: Inbound, r: RecvReply)
    requires RxReady(x, w) && Accounted(w) && x.disTO && x.state != ReadInit && x.state != ReadActive
    requires Moved(w, r, x.reqSize) > 0
    ensures var e, n := RxEvent(x, w, r), Moved(w, r, x.reqSize);
      var bytes := w.stream[w.taken..w.taken + n];
      && n <= x.reqSize && e.inb.calls == w.calls
      && e.inb.mem == w.mem[x.dptr := bytes + w.mem[x.dptr][n..]]
      && (if PollOf(r, n).Data? then
            && e.rx == x.(state := if x.callback then ReadDocb else DataAvailable,
                          returnCnt := (x.returnCnt + n) % 0x1_0000_0000)
            && e.inb.delivered == w.delivered + bytes
          else e.rx == x.(timer := 0) && e.inb.delivered == w.delivered)
  {
    MovedOnce(w, r, x.dptr, x.reqSize);
  }

  /** The poll of a disturbed slot, in the two states it can be in. */
  lemma DisturbedPoll(s: Slot, h: Hist, r: RecvReply, t: SendReply, slow: bool)
    requires Ready(s) && RxInv(s, h) && Disturbed(s, r)
    ensures var s', n := Serve(s, r, t, slow), Moved(s.inb, r, s.rx.reqSize);
      var bytes := s.inb.stream[s.inb.taken..s.inb.taken + n];
      && Live(s') && s'.rx.state == DataAvailable && s'.rx.dptr == s.rx.dptr && 0 < n <= s.rx.reqSize
      && s'.inb.mem == s.inb.mem[s.rx.dptr := bytes + s.inb.mem[s.rx.dptr][n..]]
      && (if PollOf(r, n).Data? then
            s'.rx.returnCnt == (s.rx.returnCnt + n) % 0x1_0000_0000 && s'.inb.delivered == s.inb.delivered + bytes
          else s.rx.state == DataAvailable && s'.rx.returnCnt == s.rx.returnCnt && s'.inb.delivered == s.inb.delivered)
  {
    ServeHalves(s, r, t, slow);
    UnaskedPoll(s.rx, s.inb, r);
    UnaskedHalf(s, r, slow);
    hide Serve, TxHalf, RxHalf, GoodRead, Bytes, Accounted, Reading, Filled, RxEvent, TxReady;
  }

  /** The receive half of a pass, but for the timer and what the flag does. */
  lemma UnaskedHalf(s: Slot, r: RecvReply, slow: bool)
    requires Ready(s) && Polled(s)
    ensures var e, s' := RxEvent(s.rx, s.inb, r), RxHalf(s, r, slow);
      && s'.sock == s.sock && s'.inb.mem == e.inb.mem && s'.inb.delivered == e.inb.delivered
      && s'.rx == e.rx.(state := if e.rx.state == ReadDocb then DataAvailable else e.rx.state, timer := s'.rx.timer)
  {
    hide RxEvent, RxReady, TxReady;
  }

  /** Bytes nobody asked for: the count covers those of the last read as well, or there was no read. */
  lemma UnaskedShows(s: Slot, h: Hist, r: RecvReply, t: SendReply, slow: bool)
    requires Ready(s) && RxInv(s, h) && Disturbed(s, r) && s.rx.state == ReadStart
    ensures !LaidOut(Serve(s, r, t, slow), h)
  {
    DisturbedPoll(s, h, r, t, slow);
    hide Serve, Disturbed;
    var s' := Serve(s, r, t, slow);
    assert |Waiting(s')| == 0 || |Waiting(s')| == s'.rx.returnCnt;
  }

  /** Bytes that were waiting: they are covered by others. */
  lemma CoveredShows(s: Slot, h: Hist, r: RecvReply, t: SendReply, slow: bool)
    requires Ready(s) && RxInv(s, h) && Disturbed(s, r) && s.rx.state == DataAvailable
    requires Coloured(s, s.inb.taken)
    ensures !LaidOut(Serve(s, r, t, slow), h)
  {
    DisturbedPoll(s, h, r, t, slow);
    WaitingBytes(s, h);
    var b := |Bytes(h.received)|;
    assert s.inb.delivered[b] == 0;
    assert s.inb.stream[s.inb.taken] == 1;
    hide Serve, RxInv, Disturbed, Bytes, Coloured;
    var s' := Serve(s, r, t, slow);
    assert s'.inb.delivered[b] == 0 && (Waiting(s') != [] ==> Waiting(s')[0] == 1);
    assert Waiting(s') != [] ==> (Bytes(h.received) + Waiting(s'))[b] == 1;
  }

  lemma DisturbanceShows(s: Sys, e: Event, i: nat)
    requires Shaped(s) && Enabled(s, e) && i < SOCKETS && Disturbs(s, e, i)
    requires LiveRx(s.slots[i], s.hists[i]) && Coloured(s.slots[i], s.slots[i].inb.taken)
    ensures !LaidOut(Next(s, e).slots[i], Next(s, e).hists[i])
  {
    hide LaidOut, RxInv, Coloured;
    DispatchAt(s.slots, e.a, i);
    var slow := SlowAt(s.slots, e.a, i);
    assert s.slots[i].rx.state == ReadStart || s.slots[i].rx.state == DataAvailable by {
      RestingStates(s.slots[i], s.hists[i]);
    }
    if s.slots[i].rx.state == ReadStart {
      UnaskedShows(s.slots[i], s.hists[i], e.a.rx[i], e.a.tx[i], slow);
    } else {
      CoveredShows(s.slots[i], s.hists[i], e.a.rx[i], e.a.tx[i], slow);
    }
  }

  lemma RestingStates(s: Slot, h: Hist)
    requires RxInv(s, h)
    ensures s.rx.state == ReadStart || s.rx.state == ReadActive || s.rx.state == DataAvailable
  {
  }

  /** How far the stream was read when the first disturbance came. */
  ghost function TakenThen(s: Sys, es: seq<Event>, i: nat): nat
    requires Shaped(s) && Possible(s, es) && i < SOCKETS && !Undisturbed(s, es, i)
    decreases |es|
  {
    if Disturbs(s, es[0], i) then s.slots[i].inb.taken else TakenThen(Next(s, es[0]), es[1..], i)
  }

  lemma {:induction false} PaintedIsAlike(s: Sys, es: seq<Event>, i: nat, limit: nat)
    requires Shaped(s) && Possible(s, es) && i < SOCKETS
    ensures AlikeRuns(es, Painted(s, es, i, limit))
    decreases |es|
  {
    if es != [] {
      var rest := Painted(Next(s, es[0]), es[1..], i, limit);
      PaintedIsAlike(Next(s, es[0]), es[1..], i, limit);
      hide Next;
      forall k | 0 <= k < |es| ensures SameButBytes(es[k], Painted(s, es, i, limit)[k]) {
        if k > 0 {
          assert SameButBytes(es[1..][k - 1], rest[k - 1]);
        }
      }
    }
  }

  /** With these contents the run comes to a point where the layout is wrong. */
  lemma {:induction false} PaintedShows(s: Sys, t: Sys, es: seq<Event>, i: nat)
    requires AllAlike(s, t) && Possible(s, es) && i < SOCKETS && !Undisturbed(s, es, i)
    requires LiveRx(t.slots[i], t.hists[i]) && Coloured(t.slots[i], TakenThen(s, es, i))
    ensures var es' := Painted(s, es, i, TakenThen(s, es, i)); Possible(t, es') && !AlwaysLaidOut(t, es', i)
    decreases |es|
  {
    hide Next, LiveRx, Coloured, LaidOut, Enabled, Disturbs;
    var limit := TakenThen(s, es, i);
    var es' := Painted(s, es, i, limit);
    var e, e' := es[0], es'[0];
    PaintedIsAlike(s, es, i, limit);
    AlikeRun(s, t, es, es', i);
    AlikeDisturbs(s, t, e, e', i);
    assert Alike(s.slots[i], t.slots[i]);
    if Disturbs(s, e, i) {
      DisturbanceShows(t, e', i);
    } else {
      AlikeNext(s, t, e, e');
      NextKeepsRx(t, e', i);
      NextColoured(s, t, e, i, limit);
      PaintedShows(Next(s, e), Next(t, e'), es[1..], i);
      assert es'[1..] == Painted(Next(s, e), es[1..], i, limit);
    }
  }

  /**
   The exact condition. For any socket in any run, whoever listens: the reads are laid out as
   delivered at every point, whatever bytes arrive, if and only if no pass polls the socket
   while its read is not READ_ACTIVE, because m_rx_disTO is set, and gets bytes, or moves bytes
   over ones not yet fetched.
   */
  lemma LaidOutExactly(s0: Sys, es: seq<Event>, i: nat)
    requires Initial(s0) && Possible(s0, es) && i < SOCKETS
    ensures Undisturbed(s0, es, i) <==>
      forall es' :: AlikeRuns(es, es') ==> Possible(s0, es') && AlwaysLaidOut(s0, es', i)
  {
    hide Next, Possible, Undisturbed, AlwaysLaidOut;
    assert AllAlike(s0, s0) && LiveRx(s0.slots[i], s0.hists[i]);
    if Undisturbed(s0, es, i) {
      forall es' | AlikeRuns(es, es') ensures Possible(s0, es') && AlwaysLaidOut(s0, es', i) {
        AlikeRun(s0, s0, es, es', i);
        UndisturbedIsLaidOut(s0, es', i);
      }
    } else {
      var limit := TakenThen(s0, es, i);
      PaintedIsAlike(s0, es, i, limit);
      PaintedShows(s0, s0, es, i);
    }
  }
}
