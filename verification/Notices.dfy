/**
 The call-backs, over whole runs: what the application attached and set is what the driver goes
 by, and each transfer and each read makes exactly the call-back it was started with, when it ends.
 */
module Notices {
  import opened Common
  import opened Modem
  import opened Engine
  import opened System
  import opened Transmit
  import opened Polling

  function Trues(bs: seq<bool>): nat {
    if bs == [] then 0 else Trues(bs[..|bs| - 1]) + if bs[|bs| - 1] then 1 else 0
  }

  lemma TruesMore(bs: seq<bool>, b: bool)
    ensures Trues(bs + [b]) == Trues(bs) + if b then 1 else 0
  {
    assert (bs + [b])[..|bs|] == bs;
  }

  // ---- what the driver goes by is what the application asked for ----

  predicate Resting(s: Slot) {
    && (s.tx.state == TxIdle || s.tx.state == TxActive || s.tx.state == TxComplete)
    && (s.rx.state == ReadStart || s.rx.state == ReadActive || s.rx.state == DataAvailable)
  }

  /** How many of the transfers started have been sent to the end. */
  function Finished(s: Slot, h: Hist): nat {
    if s.tx.state == TxActive && h.started != [] then |h.started| - 1 else |h.started|
  }

  ghost predicate TxKept(s: Slot, h: Hist) {
    && |h.notify| == |h.started|
    && (s.tx.state == TxActive ==> h.started != [] && s.tx.callback == h.notify[|h.notify| - 1])
    && s.out.calls == Trues(h.notify[..Finished(s, h)])
  }

  predicate RxKept(s: Slot, h: Hist) {
    && (h.asked.size >= 1 ==> s.rx.callback == h.asked.attached && s.rx.disTO == h.asked.listening)
    && (s.rx.state == ReadActive ==> h.asked.size >= 1)
  }

  predicate SockKept(s: Slot, h: Hist) {
    s.sock.callback == h.attached && s.sock.disTO == h.listening && s.sock.connected == h.connected
  }

  ghost predicate Kept(s: Slot, h: Hist) {
    Live(s) ==> Resting(s) && SockKept(s, h) && TxKept(s, h) && RxKept(s, h)
  }

  /** One more transfer started: it goes on, or has ended with its call-back. */
  lemma OneMoreKept(s: Slot, h: Hist, s': Slot, h': Hist)
    requires TxKept(s, h) && s.tx.state == TxIdle
    requires |h'.started| == |h.started| + 1 && h'.notify == h.notify + [h.attached]
    requires s'.tx.state == TxActive ==> s'.tx.callback == h.attached && s'.out.calls == s.out.calls
    requires s'.tx.state != TxActive ==> s'.out.calls == s.out.calls + if h.attached then 1 else 0
    ensures TxKept(s', h')
  {
    var n := |h.notify|;
    TruesMore(h.notify, h.attached);
    assert h.notify[..n] == h.notify;
    assert h'.notify[..n] == h.notify && h'.notify[..n + 1] == h'.notify;
  }

  /** The call-back of a transfer that ends within the call that starts it. */
  lemma SendKeepsKept(s: Slot, h: Hist, e: Event)
    requires e.Send? && Ready(s) && EnabledAt(s, e) && Resting(s) && SockKept(s, h) && TxKept(s, h)
    ensures Resting(Act(s, e)) && TxKept(Act(s, e), Note(s, h, e))
  {
    hide Trues, ToInt32;
    if e.size >= 1 && e.data.To? && s.tx.state == TxIdle {
      hide TxKept;
      OneMoreKept(s, h, Act(s, e), Note(s, h, e));
    }
  }

  lemma RecvKeepsKept(s: Slot, h: Hist, e: Event)
    requires e.Recv? && Ready(s) && EnabledAt(s, e) && Resting(s) && SockKept(s, h) && RxKept(s, h)
    ensures Resting(Act(s, e)) && RxKept(Act(s, e), Note(s, h, e))
  {
    hide Received, Front, ToInt32, PollOf;
  }

  lemma ActKeepsKept(s: Slot, h: Hist, e: Event)
    requires Local(e) && Ready(s) && EnabledAt(s, e) && Kept(s, h)
    ensures Kept(Act(s, e), Note(s, h, e))
  {
    hide Trues, Front, ToInt32;
    CallHalves(s, e);
    NoteHalves(s, h, e);
    if e.Send? {
      hide Engine.Send, Note;
      SendKeepsKept(s, h, e);
    } else if e.Recv? {
      hide Engine.Recv, Note;
      RecvKeepsKept(s, h, e);
    } else {
      hide Engine.Send, Engine.Recv;
    }
  }

  /** The transfer in progress has ended, with its call-back. */
  lemma EndedKept(s: Slot, h: Hist, s': Slot)
    requires TxKept(s, h) && s.tx.state == TxActive && s'.tx.state != TxActive
    requires s'.out.calls == s.out.calls + if s.tx.callback then 1 else 0
    ensures TxKept(s', h)
  {
    var n := |h.notify|;
    assert h.notify == h.notify[..n - 1] + [h.notify[n - 1]] && h.notify[..n] == h.notify;
    TruesMore(h.notify[..n - 1], h.notify[n - 1]);
  }

  lemma TxHalfKeepsKept(s: Slot, h: Hist, t: SendReply)
    requires Ready(s) && Resting(s) && TxKept(s, h)
    ensures Resting(TxHalf(s, t)) && TxKept(TxHalf(s, t), h)
    ensures TxHalf(s, t).tx.state == TxActive <==> s.tx.state == TxActive && !EndsTransfer(s, t)
  {
    hide Trues, RxReady;
    if EndsTransfer(s, t) {
      hide TxKept;
      EndedKept(s, h, TxHalf(s, t));
    }
  }

  /** The receive half of a pass: one call-back if the poll ends a read that has one, or none. */
  lemma RxHalfCalls(s: Slot, r: RecvReply, slow: bool)
    requires Ready(s) && Resting(s)
    ensures var s' := RxHalf(s, r, slow);
      && Resting(s') && s'.rx.callback == s.rx.callback && s'.rx.disTO == s.rx.disTO
      && (s'.rx.state == ReadActive <==> s.rx.state == ReadActive && !EndsRead(s, r))
      && (EndsRead(s, r) ==> s'.rx.state == DataAvailable)
      && s'.inb.calls == s.inb.calls + if EndsRead(s, r) && s.rx.callback then 1 else 0
  {
    if Polled(s) {
      PollEnds(s, r);
    } else {
      assert !EndsRead(s, r);
    }
    hide Moved, RxEvent, RxReady, TxReady, EndsRead;
  }

  lemma PollEnds(s: Slot, r: RecvReply)
    requires Ready(s) && Resting(s) && Polled(s)
    ensures var e := RxEvent(s.rx, s.inb, r);
      && e.inb.calls == s.inb.calls && e.rx.callback == s.rx.callback && e.rx.disTO == s.rx.disTO
      && e.rx.state == if !EndsRead(s, r) then s.rx.state else if s.rx.callback then ReadDocb else DataAvailable
  {
    hide Moved, TxReady;
  }

  lemma ServeKeepsKept(s: Slot, h: Hist, r: RecvReply, t: SendReply, slow: bool)
    requires Ready(s) && Kept(s, h)
    ensures Kept(Serve(s, r, t, slow), h)
  {
    ServeHalves(s, r, t, slow);
    if Live(s) {
      TxHalfKeepsKept(s, h, t);
      RxHalfCalls(s, r, slow);
    }
    hide Serve, TxHalf, RxHalf, EndsRead, EndsTransfer, Trues;
  }

  lemma NextKeepsKept(s: Sys, e: Event, i: nat)
    requires Shaped(s) && Enabled(s, e) && i < SOCKETS && Kept(s.slots[i], s.hists[i])
    ensures Kept(Next(s, e).slots[i], Next(s, e).hists[i])
  {
    NextIs(s, e);
    hide Next, Serve, Act, Note;
    if e.Dispatch? {
      hide Kept;
      DispatchAt(s.slots, e.a, i);
      ServeKeepsKept(s.slots[i], s.hists[i], e.a.rx[i], e.a.tx[i], SlowAt(s.slots, e.a, i));
    } else if Local(e) && e.i == i {
      ActKeepsKept(s.slots[i], s.hists[i], e);
    }
  }

  lemma {:induction false} RunKeepsKept(s: Sys, es: seq<Event>, i: nat)
    requires Shaped(s) && Possible(s, es) && i < SOCKETS && Kept(s.slots[i], s.hists[i])
    ensures Kept(After(s, es).slots[i], After(s, es).hists[i])
    decreases |es|
  {
    hide Kept;
    if es != [] {
      NextKeepsKept(s, es[0], i);
      RunKeepsKept(Next(s, es[0]), es[1..], i);
    }
  }

  /** In every run: the driver's flags of a live socket are what the application last set with
      success since it was opened, and a read goes on with those of the call that started it. */
  lemma FlagsAreTheApplications(s0: Sys, es: seq<Event>, i: nat)
    requires Initial(s0) && Possible(s0, es) && i < SOCKETS && Live(After(s0, es).slots[i])
    ensures var s := After(s0, es).slots[i]; var h := After(s0, es).hists[i];
      && s.sock.callback == h.attached && s.sock.disTO == h.listening && s.sock.connected == h.connected
      && (h.asked.size >= 1 ==> s.rx.callback == h.asked.attached && s.rx.disTO == h.asked.listening)
      && (s.rx.state == ReadActive ==> h.asked.size >= 1)
  {
    RunKeepsKept(s0, es, i);
  }

  /**
   Transmit call-backs. At every point of every run, on every live socket, with `n` the number
   of its transfers the modem was given to the end: as many call-backs have been made as there
   are ones among those `n` that were started with a call-back attached.
   */
  lemma TransmitCallBacks(s0: Sys, es: seq<Event>, i: nat)
    requires Initial(s0) && Possible(s0, es) && i < SOCKETS && Live(After(s0, es).slots[i])
    ensures var s := After(s0, es).slots[i]; var h := After(s0, es).hists[i]; var n := Finished(s, h);
      && |h.notify| == |h.started| && |h.started| <= n + 1
      && (n == |h.started| ==> s.out.wire == AllChunks(h.started))
      && (n < |h.started| ==>
            && ChunksSent(s.tx) < ChunkCount(|h.started[n]|)
            && s.out.wire == AllChunks(h.started[..n]) + Chunks(h.started[n])[..ChunksSent(s.tx)])
      && s.out.calls == Trues(h.notify[..n])
  {
    RunKeepsKept(s0, es, i);
    RunKeepsTx(s0, es);
    hide Next;
    var s, h := After(s0, es).slots[i], After(s0, es).hists[i];
    if s.tx.state == TxActive {
      Delivered(s, h);
      NextChunk(s.tx.data, s.tx.totalSent);
    }
  }

  // ---- receive call-backs ----

  /** The call-back in effect for what is polled: the one attached when the read was started; on
      a socket that has started none, the one left by whoever held the slot before. */
  function InEffect(s: Slot, h: Hist): bool {
    if h.asked.size >= 1 then h.asked.attached else s.rx.callback
  }

  /** A call that starts a read and gets data at once. */
  predicate ReadAtOnce(s: Slot, e: Event)
    requires e.Recv? && Ready(s) && EnabledAt(s, e)
  {
    && e.size >= 1 && e.b.At? && s.rx.state == ReadStart
    && PollOf(e.r, Moved(s.inb, e.r, Min(e.size, BUFF_SIZE))).Data?
  }

  /** The call-backs, beside those for transfers, that an event is to make on slot `i`. */
  ghost function CallDue(s: Sys, e: Event, i: nat): nat
    requires Shaped(s) && Enabled(s, e) && i < SOCKETS
  {
    var due := match e
      case Dispatch(a) => EndsRead(s.slots[i], a.rx[i]) && InEffect(s.slots[i], s.hists[i])
      case Recv(j, _, _, _) => j == i && ReadAtOnce(s.slots[i], e) && s.hists[i].attached
      case Connect(j, opens, _) => j == i && (opens[0] || opens[1]) && s.hists[i].attached
      case _ => false;
    if due then 1 else 0
  }

  ghost function CallsDue(s: Sys, es: seq<Event>, i: nat): nat
    requires Shaped(s) && Possible(s, es) && i < SOCKETS
    decreases |es|
  {
    if es == [] then 0 else CallDue(s, es[0], i) + CallsDue(Next(s, es[0]), es[1..], i)
  }

  lemma RecvCalls(s: Slot, e: Event)
    requires e.Recv? && Ready(s) && EnabledAt(s, e) && Resting(s)
    ensures Act(s, e).inb.calls == s.inb.calls + if ReadAtOnce(s, e) && s.sock.callback then 1 else 0
  {
    hide ToInt32;
    assert Moved(s.inb.(polls := []), e.r, Min(e.size, BUFF_SIZE)) == Moved(s.inb, e.r, Min(e.size, BUFF_SIZE));
  }

  lemma LocalCalls(s: Slot, e: Event)
    requires Local(e) && !e.Recv? && Ready(s) && EnabledAt(s, e)
    ensures Act(s, e).inb.calls == s.inb.calls +
      if e.Connect? && (e.opens[0] || e.opens[1]) && s.sock.callback then 1 else 0
  {
    CallHalves(s, e);
  }

  lemma StepCalls(s: Sys, e: Event, i: nat)
    requires Shaped(s) && Enabled(s, e) && i < SOCKETS && Live(s.slots[i]) && Kept(s.slots[i], s.hists[i])
    requires !(e.Close? && e.i == i)
    ensures Live(Next(s, e).slots[i])
    ensures Next(s, e).slots[i].inb.calls == s.slots[i].inb.calls + CallDue(s, e, i)
  {
    NextIs(s, e);
    hide Next, Serve, EndsRead, ReadAtOnce, TxKept;
    if e.Dispatch? {
      var slow := SlowAt(s.slots, e.a, i);
      DispatchAt(s.slots, e.a, i);
      ServeHalves(s.slots[i], e.a.rx[i], e.a.tx[i], slow);
      RxHalfCalls(s.slots[i], e.a.rx[i], slow);
      EndingIsInEffect(s.slots[i], s.hists[i], e.a.rx[i]);
    } else if Local(e) && e.i == i {
      CallHalves(s.slots[i], e);
      if e.Recv? {
        RecvCalls(s.slots[i], e);
      } else {
        LocalCalls(s.slots[i], e);
      }
    }
  }

  lemma EndingIsInEffect(s: Slot, h: Hist, r: RecvReply)
    requires Live(s) && Kept(s, h)
    ensures s.rx.callback == InEffect(s, h)
  {
  }

  lemma {:induction false} RunCalls(s: Sys, es: seq<Event>, i: nat)
    requires Shaped(s) && Possible(s, es) && i < SOCKETS && Live(s.slots[i]) && Kept(s.slots[i], s.hists[i])
    requires KeptOpen(es, i)
    ensures After(s, es).slots[i].inb.calls == s.slots[i].inb.calls + CallsDue(s, es, i)
    decreases |es|
  {
    hide Kept, CallDue, Live;
    if es != [] {
      StepCalls(s, es[0], i);
      NextKeepsKept(s, es[0], i);
      RunCalls(Next(s, es[0]), es[1..], i);
    }
  }

  /**
   Receive call-backs. Over any stretch of any run in which a socket is not closed, whoever
   listens, and whatever the slow flag does: one is made for each poll that ends a read with a
   call-back in effect, in a pass or within socket_recv, and one for each connection made with
   a call-back attached; and no others.
   */
  lemma {:induction false} ReceiveCallBacks(s0: Sys, before: seq<Event>, es: seq<Event>, i: nat)
    requires Initial(s0) && Possible(s0, before) && Possible(After(s0, before), es)
    requires i < SOCKETS && Live(After(s0, before).slots[i]) && KeptOpen(es, i)
    ensures var s := After(s0, before);
      After(s, es).slots[i].inb.calls == s.slots[i].inb.calls + CallsDue(s, es, i)
  {
    RunKeepsKept(s0, before, i);
    RunCalls(After(s0, before), es, i);
  }
}
