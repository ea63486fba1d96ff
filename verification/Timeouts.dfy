/**
 Runs in which no socket ever listens: the slow flag is never raised, so a read times out
 exactly on its 601st empty poll in a row.
 */
module Timeouts {
  import opened Common
  import opened Modem
  import opened Engine
  import opened System
  import opened Receive

  /** No socket ever listens in the run. */
  ghost predicate Quiet(es: seq<Event>) {
    forall k :: 0 <= k < |es| ==> !es[k].Listen?
  }

  /** The flag has never been up at this slot. */
  ghost predicate Unhurried(s: Slot, h: Hist) {
    Slowed !in s.inb.polls && forall k :: 0 <= k < |h.received| ==> Slowed !in h.received[k].polls
  }

  ghost predicate Calm(s: Slot, h: Hist) {
    Ordinary(s) && LiveRx(s, h) && (Live(s) ==> Unhurried(s, h))
  }

  ghost predicate AllRx(s: Sys)
    requires Shaped(s)
  {
    forall i :: 0 <= i < SOCKETS ==> Calm(s.slots[i], s.hists[i])
  }

  /** The timer of a read in progress counts the empty polls. */
  lemma CalmTimer(s: Slot, h: Hist)
    requires Calm(s, h) && s.rx.state == ReadActive
    ensures Live(s) && s.rx.timer == Row(s.inb.polls) <= READ_TICKS && Reading(s.rx, s.inb, h)
  {
    TimerIsTheRow(s.inb.polls);
  }

  lemma OneTick(x: Rx, w: Inbound, r: RecvReply)
    requires RxReady(x, w) && 0 <= x.timer
    ensures RxEvent(x, w, r).rx.timer <= x.timer + 1
  {
  }

  lemma NotOverdue(s: Slot, h: Hist, r: RecvReply)
    requires Ready(s) && Calm(s, h)
    ensures !SlowAfterRx(s, r, false)
  {
    hide RxEvent, LiveRx, Unhurried, RxReady;
    if s.rx.state == ReadActive {
      CalmTimer(s, h);
      OneTick(s.rx, s.inb, r);
    }
  }

  lemma FlagStaysDown(slots: seq<Slot>, a: Answers, m: nat)
    requires AllReady(slots) && a.Full() && m < SOCKETS
    requires !SlowAt(slots, a, m) && !SlowAfterRx(slots[m], a.rx[m], false)
    ensures !SlowAt(slots, a, m + 1)
  {
    FirstLoopStep(slots, a, m);
    hide FirstLoop, SlowAfterRx, SlowedRx, VisitTx, Ready;
  }

  /** With nobody listening the slow flag is never raised. */
  lemma {:induction false} NeverSlow(s: Sys, a: Answers, n: nat)
    requires Shaped(s) && AllRx(s) && a.Full() && n <= SOCKETS
    ensures !SlowAt(s.slots, a, n)
  {
    if n > 0 {
      hide SlowAt, SlowAfterRx, Calm, Ready;
      NeverSlow(s, a, n - 1);
      NotOverdue(s.slots[n - 1], s.hists[n - 1], a.rx[n - 1]);
      FlagStaysDown(s.slots, a, n - 1);
    }
  }

  lemma ServeKeepsUnhurried(s: Slot, h: Hist, r: RecvReply, t: SendReply)
    requires Ready(s) && Unhurried(s, h) && !SlowAfterRx(s, r, false)
    ensures Unhurried(Serve(s, r, t, false), h)
  {
    ServeHalves(s, r, t, false);
    hide Serve, TxHalf, TxReady;
  }

  lemma ServeKeepsCalm(s: Slot, h: Hist, r: RecvReply, t: SendReply)
    requires Ready(s) && Calm(s, h)
    ensures Calm(Serve(s, r, t, false), h)
  {
    NotOverdue(s, h, r);
    ServeKeepsOrdinary(s, r, t, false);
    if Live(s) {
      ServeKeepsRx(s, h, r, t, false);
      ServeKeepsUnhurried(s, h, r, t);
    }
    ServeHalves(s, r, t, false);
    hide Serve, TxHalf, RxHalf, RxInv, Unhurried, Ordinary, SlowAfterRx, Ready, Disturbed;
  }

  lemma ActKeepsUnhurried(s: Slot, h: Hist, e: Event)
    requires Local(e) && Ready(s) && EnabledAt(s, e) && Unhurried(s, h)
    ensures Unhurried(Act(s, e), Note(s, h, e))
  {
    CallHalves(s, e);
    NoteHalves(s, h, e);
    if e.Recv? {
      RecvKeepsUnhurried(s, h, e);
    }
    hide Note, Engine.Recv, Engine.Send;
  }

  lemma RecvKeepsUnhurried(s: Slot, h: Hist, e: Event)
    requires e.Recv? && Ready(s) && EnabledAt(s, e) && Unhurried(s, h)
    ensures Unhurried(Act(s, e), Note(s, h, e))
  {
    hide Front;
    if e.size >= 1 && e.b.At? && s.rx.state == ReadStart {
      var step := RxEvent(NewRx(s, e.b.buf, e.size), s.inb.(polls := []), e.r);
      assert |step.inb.polls| == 1 && step.inb.polls[0] != Slowed;
      assert Act(s, e).inb.polls == step.inb.polls;
    }
  }

  lemma LocalKeepsCalm(s: Slot, h: Hist, e: Event)
    requires Local(e) && !e.Listen? && Ready(s) && EnabledAt(s, e) && Calm(s, h)
    ensures Calm(Act(s, e), Note(s, h, e))
  {
    hide RxInv, Unhurried;
    CallHalves(s, e);
    ActKeepsOrdinary(s, e);
    LocalKeepsRx(s, h, e);
    if Live(s) {
      ActKeepsUnhurried(s, h, e);
    }
  }

  lemma NextKeepsCalmAt(s: Sys, e: Event, i: nat)
    requires Shaped(s) && Enabled(s, e) && !e.Listen? && AllRx(s) && i < SOCKETS
    ensures Calm(Next(s, e).slots[i], Next(s, e).hists[i])
  {
    hide Serve, Act, Note, RxInv;
    if e.Dispatch? {
      hide Calm;
      DispatchAt(s.slots, e.a, i);
      NeverSlow(s, e.a, i);
      ServeKeepsCalm(s.slots[i], s.hists[i], e.a.rx[i], e.a.tx[i]);
    } else if Local(e) && e.i == i {
      LocalKeepsCalm(s.slots[i], s.hists[i], e);
    } else {
      NextKeepsOrdinary(s, e, i);
      NextKeepsRx(s, e, i);
    }
  }

  lemma NextKeepsCalm(s: Sys, e: Event)
    requires Shaped(s) && Enabled(s, e) && !e.Listen? && AllRx(s)
    ensures AllRx(Next(s, e))
  {
    forall i | 0 <= i < SOCKETS
      ensures Calm(Next(s, e).slots[i], Next(s, e).hists[i])
    {
      NextKeepsCalmAt(s, e, i);
    }
  }

  lemma {:induction false} RunKeepsCalm(s: Sys, es: seq<Event>)
    requires Shaped(s) && Possible(s, es) && Quiet(es) && AllRx(s)
    ensures AllRx(After(s, es))
    decreases |es|
  {
    if es != [] {
      NextKeepsCalm(s, es[0]);
      RunKeepsCalm(Next(s, es[0]), es[1..]);
    }
  }

  /** The timer of a read in progress counts its empty polls since the last failed one. */
  lemma TimerCountsEmptyPolls(s0: Sys, es: seq<Event>, i: nat)
    requires Initial(s0) && Possible(s0, es) && Quiet(es) && i < SOCKETS
    requires After(s0, es).slots[i].rx.state == ReadActive
    ensures var s := After(s0, es).slots[i];
      Live(s) && s.rx.timer == Row(s.inb.polls) <= READ_TICKS && Slowed !in s.inb.polls
  {
    RunKeepsCalm(s0, es);
    CalmTimer(After(s0, es).slots[i], After(s0, es).hists[i]);
  }

  /** A read that reports 0 has ended on its 601st empty poll in a row. */
  lemma ReadsTakeTheirTime(s0: Sys, es: seq<Event>, i: nat, k: nat)
    requires Initial(s0) && Possible(s0, es) && Quiet(es) && i < SOCKETS && Live(After(s0, es).slots[i])
    requires k < |After(s0, es).hists[i].received| && After(s0, es).hists[i].received[k].ret == 0
    ensures Row(After(s0, es).hists[i].received[k].polls) == READ_TICKS + 1
  {
    RunKeepsCalm(s0, es);
    ReadsTimeOutExactly(s0, es, i, k);
    var ps := After(s0, es).hists[i].received[k].polls;
    assert |ps| >= 2 ==> ps[|ps| - 2] in ps;
  }
}
