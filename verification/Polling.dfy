/**
 The background pass of g_eq_event over whole runs: what holds between passes whoever
 listens, how the shared slow flag links the sockets, and how without listening sockets the
 pass falls apart into independent steps.
 */
module Polling {
  import opened Modem
  import opened Engine
  import opened System
  import opened Receive
  import opened Timeouts

  // ---- what holds whenever the lock is free, listening or not ----

  /** Only resting states are seen; the ids are right; the timers of polled sockets are bounded. */
  ghost predicate Steady(s: Slot, i: nat) {
    && (s.sock.id == -1 || s.sock.id == i)
    && (s.tx.state == TxIdle || s.tx.state == TxActive || s.tx.state == TxComplete)
    && (s.rx.state == ReadStart || s.rx.state == ReadActive || s.rx.state == DataAvailable)
    && (Polled(s) ==> 0 <= s.rx.timer <= SLOW_TICKS)
  }

  ghost predicate AllSteady(s: Sys)
    requires Shaped(s)
  {
    forall i :: 0 <= i < SOCKETS ==> Steady(s.slots[i], i)
  }

  lemma ActKeepsSteady(s: Slot, e: Event, i: nat)
    requires Local(e) && Ready(s) && EnabledAt(s, e) && Steady(s, i)
    ensures Steady(Act(s, e), i)
  {
    CallHalves(s, e);
  }

  lemma ServeKeepsSteady(s: Slot, r: RecvReply, t: SendReply, slow: bool, i: nat)
    requires Ready(s) && Steady(s, i)
    ensures Steady(Serve(s, r, t, slow), i)
  {
    ServeHalves(s, r, t, slow);
    hide Serve;
    RxHalfSteady(s, r, slow);
  }

  lemma RxHalfSteady(s: Slot, r: RecvReply, slow: bool)
    requires Ready(s) && (Polled(s) ==> 0 <= s.rx.timer <= SLOW_TICKS)
    requires s.rx.state == ReadStart || s.rx.state == ReadActive || s.rx.state == DataAvailable
    ensures var s' := RxHalf(s, r, slow);
      && (s'.rx.state == ReadStart || s'.rx.state == ReadActive || s'.rx.state == DataAvailable)
      && (Polled(s') ==> 0 <= s'.rx.timer <= SLOW_TICKS)
  {
  }

  lemma NextKeepsSteadyAt(s: Sys, e: Event, i: nat)
    requires Shaped(s) && Enabled(s, e) && AllSteady(s) && i < SOCKETS
    ensures Steady(Next(s, e).slots[i], i)
  {
    hide Serve, Act, Note;
    if e.Dispatch? {
      DispatchAt(s.slots, e.a, i);
      ServeKeepsSteady(s.slots[i], e.a.rx[i], e.a.tx[i], SlowAt(s.slots, e.a, i), i);
    } else if Local(e) && e.i == i {
      ActKeepsSteady(s.slots[i], e, i);
    }
  }

  lemma {:induction false} RunKeepsSteady(s: Sys, es: seq<Event>)
    requires Shaped(s) && Possible(s, es) && AllSteady(s)
    ensures AllSteady(After(s, es))
    decreases |es|
  {
    if es != [] {
      forall i | 0 <= i < SOCKETS ensures Steady(Next(s, es[0]).slots[i], i) {
        NextKeepsSteadyAt(s, es[0], i);
      }
      RunKeepsSteady(Next(s, es[0]), es[1..]);
    }
  }

  /** In every run, with any mix of listening and ordinary sockets: between operations every
      socket rests, so the DEVICE_ERROR arms of socket_send and socket_recv are never taken,
      and no timer passes 24000. */
  lemma AlwaysSteady(s0: Sys, es: seq<Event>)
    requires Initial(s0) && Possible(s0, es)
    ensures forall i :: 0 <= i < SOCKETS ==> Steady(After(s0, es).slots[i], i)
  {
    RunKeepsSteady(s0, es);
  }

  /** socket_open takes the lowest free slot, and fails exactly when all five are live. */
  lemma OpenTakesTheLowestFreeSlot(s0: Sys, es: seq<Event>)
    requires Initial(s0) && Possible(s0, es)
    ensures var s, s' := After(s0, es), Next(After(s0, es), Open); var i := FirstFree(s.slots, 0);
      && (i == SOCKETS <==> forall k :: 0 <= k < SOCKETS ==> Live(s.slots[k]))
      && (i == SOCKETS ==> s' == s)
      && (i < SOCKETS ==>
            && !Live(s.slots[i]) && s'.slots[i].sock == Sock(i, false, false, false)
            && s'.slots[i].tx.state == TxIdle && s'.slots[i].rx.state == ReadStart
            && (forall k :: 0 <= k < i ==> Live(s.slots[k]))
            && (forall k :: 0 <= k < SOCKETS && k != i ==> s'.slots[k] == s.slots[k]))
  {
    RunKeepsSteady(s0, es);
    var s := After(s0, es);
    forall k | 0 <= k < SOCKETS ensures Live(s.slots[k]) <==> s.slots[k].sock.id != -1 {
      assert Steady(s.slots[k], k);
    }
  }

  // ---- the slow flag ----

  /** The poll of this slot takes its timer past the slow limit. */
  predicate Overdue(s: Slot, r: RecvReply)
    requires Ready(s)
  {
    Polled(s) && RxEvent(s.rx, s.inb, r).rx.timer > SLOW_TICKS
  }

  /** Slot `j` raises the flag and no transmission lowers it before slot `n`. */
  ghost predicate Raises(slots: seq<Slot>, a: Answers, j: nat, n: nat)
    requires AllReady(slots) && a.Full() && j < n <= SOCKETS
  {
    Overdue(slots[j], a.rx[j]) && forall k :: j <= k < n ==> slots[k].tx.state != TxActive
  }

  /** Some slot below `n` raises it. */
  ghost predicate Raised(slots: seq<Slot>, a: Answers, n: nat)
    requires AllReady(slots) && a.Full() && n <= SOCKETS
  {
    exists j :: 0 <= j < n && Raises(slots, a, j, n)
  }

  /** The flag a slot meets was raised by a lower slot, with no active transmission between. */
  lemma {:induction false} SlowExactly(slots: seq<Slot>, a: Answers, n: nat)
    requires AllReady(slots) && a.Full() && n <= SOCKETS
    ensures SlowAt(slots, a, n) <==> Raised(slots, a, n)
  {
    if n > 0 {
      var m := n - 1;
      SlowExactly(slots, a, m);
      FirstLoopStep(slots, a, m);
      hide FirstLoop, RxEvent;
      assert SlowAt(slots, a, n) <==>
        (SlowAt(slots, a, m) || Overdue(slots[m], a.rx[m])) && slots[m].tx.state != TxActive;
      if SlowAt(slots, a, n) {
        if SlowAt(slots, a, m) {
          var j :| 0 <= j < m && Raises(slots, a, j, m);
          assert Raises(slots, a, j, n);
        } else {
          assert Raises(slots, a, m, n);
        }
      }
      if j :| 0 <= j < n && Raises(slots, a, j, n) {
        if j < m {
          assert Raises(slots, a, j, m);
        }
      }
    }
  }

  /** An ordinary read in progress keeps count of an empty poll exactly when the flag it meets is
      down; otherwise its timer jumps to 24000, and the next empty poll ends it. */
  lemma CountKeptExactlyWhenNotSlow(slots: seq<Slot>, a: Answers, i: nat)
    requires AllReady(slots) && a.Full() && i < SOCKETS
    requires var x := slots[i].rx; x.state == ReadActive && !x.disTO && 0 <= x.timer < READ_TICKS
    requires PollOf(a.rx[i], Moved(slots[i].inb, a.rx[i], slots[i].rx.reqSize)).Empty?
    ensures var x, x' := slots[i].rx, Engine.Dispatch(slots, a).slots[i].rx;
      && x'.state == ReadActive
      && (x'.timer == x.timer + 1 <==> !Raised(slots, a, i))
      && (x'.timer != x.timer + 1 ==> x'.timer == SLOW_TICKS)
  {
    hide Engine.Dispatch, FirstLoop, Serve, Raised, SlowAt, Ready;
    DispatchAt(slots, a, i);
    SlowExactly(slots, a, i);
    EmptyPoll(slots[i], a.rx[i], a.tx[i], SlowAt(slots, a, i));
  }

  lemma EmptyPoll(s: Slot, r: RecvReply, t: SendReply, slow: bool)
    requires Ready(s) && s.rx.state == ReadActive && !s.rx.disTO && 0 <= s.rx.timer < READ_TICKS
    requires PollOf(r, Moved(s.inb, r, s.rx.reqSize)).Empty?
    ensures Serve(s, r, t, slow).rx == s.rx.(timer := if slow then SLOW_TICKS else s.rx.timer + 1)
  {
    ServeHalves(s, r, t, slow);
  }

  // ---- rescheduling ----

  predicate Active(s: Slot) {
    s.rx.state == ReadActive || s.tx.state == TxActive
  }

  /** A slot polled without end of its read, or a transfer that has not ended. */
  predicate AsksForMore(s: Slot, r: RecvReply, t: SendReply)
    requires Ready(s)
  {
    (Polled(s) && !EndsRead(s, r)) || (s.tx.state == TxActive && !EndsTransfer(s, t))
  }

  lemma VisitAsks(s: Slot, r: RecvReply, t: SendReply, slow: bool)
    requires Ready(s)
    ensures VisitSlot(s, r, t, slow).more <==> AsksForMore(s, r, t)
  {
  }

  ghost predicate MoreAt(slots: seq<Slot>, a: Answers, i: nat)
    requires AllReady(slots) && a.Full() && i < SOCKETS
  {
    AsksForMore(slots[i], a.rx[i], a.tx[i])
  }

  /** A pass asks for another exactly when some slot does, whoever listens. */
  lemma {:induction false} MoreExactly(slots: seq<Slot>, a: Answers, n: nat)
    requires AllReady(slots) && a.Full() && n <= SOCKETS
    ensures FirstLoop(slots, a, n).more <==> exists i :: 0 <= i < n && MoreAt(slots, a, i)
  {
    if n > 0 {
      MoreExactly(slots, a, n - 1);
      FirstLoopStep(slots, a, n - 1);
      VisitAsks(slots[n - 1], a.rx[n - 1], a.tx[n - 1], SlowAt(slots, a, n - 1));
      hide FirstLoop, VisitSlot, AsksForMore;
      assert FirstLoop(slots, a, n).more <==> FirstLoop(slots, a, n - 1).more || MoreAt(slots, a, n - 1);
    }
  }

  lemma ActiveAsksForMore(s: Slot, r: RecvReply, t: SendReply, slow: bool)
    requires Ready(s) && Active(Serve(s, r, t, slow))
    ensures VisitSlot(s, r, t, slow).more
  {
    ServeHalves(s, r, t, slow);
  }

  /** Whoever listens: a socket still active after a pass makes the pass reschedule itself. */
  lemma ActiveIsRescheduled(slots: seq<Slot>, a: Answers, i: nat)
    requires AllReady(slots) && a.Full() && i < SOCKETS && Active(Engine.Dispatch(slots, a).slots[i])
    ensures Engine.Dispatch(slots, a).more
  {
    DispatchAt(slots, a, i);
    MoreExactly(slots, a, SOCKETS);
    ActiveAsksForMore(slots[i], a.rx[i], a.tx[i], SlowAt(slots, a, i));
    VisitAsks(slots[i], a.rx[i], a.tx[i], SlowAt(slots, a, i));
    assert MoreAt(slots, a, i);
  }

  /** One slot's share of a pass when nobody listens, its events' call-backs made, once each. */
  ghost predicate Share(s: Slot, r: RecvReply, t: SendReply, s': Slot)
    requires Ready(s)
  {
    && s' == Serve(s, r, t, false)
    && s'.rx.state != ReadDocb && s'.tx.state != TxDocb
    && s'.inb.calls == s.inb.calls +
         (if s.rx.callback && s.rx.state == ReadActive && s'.rx.state != ReadActive then 1 else 0)
    && s'.out.calls == s.out.calls +
         (if s.tx.callback && s.tx.state == TxActive && s'.tx.state != TxActive then 1 else 0)
  }

  /** Such a slot asks for more exactly when it stays active. */
  lemma OrdinaryShare(s: Slot, r: RecvReply, t: SendReply, i: nat)
    requires Ready(s) && Steady(s, i) && !s.rx.disTO
    ensures Share(s, r, t, Serve(s, r, t, false))
    ensures VisitSlot(s, r, t, false).more <==> Active(Serve(s, r, t, false))
  {
    ServeHalves(s, r, t, false);
  }

  /**
   Pointwise dispatch. In a run without socket_listen a pass is five independent steps, each
   leaving its slot at rest with one call-back per event it ended, and it reschedules exactly
   when some socket is still active.
   */
  lemma DispatchIsPointwise(s0: Sys, es: seq<Event>, a: Answers)
    requires Initial(s0) && Possible(s0, es) && Quiet(es) && a.Full()
    ensures var slots := After(s0, es).slots; var d := Engine.Dispatch(slots, a);
      && |d.slots| == SOCKETS
      && (forall i :: 0 <= i < SOCKETS ==> Share(slots[i], a.rx[i], a.tx[i], d.slots[i]))
      && (d.more <==> exists i :: 0 <= i < SOCKETS && Active(d.slots[i]))
  {
    RunKeepsSteady(s0, es);
    RunKeepsCalm(s0, es);
    PointwiseAt(After(s0, es), a);
  }

  lemma PointwiseAt(s: Sys, a: Answers)
    requires Shaped(s) && AllSteady(s) && AllRx(s) && a.Full()
    ensures var d := Engine.Dispatch(s.slots, a);
      && (forall i :: 0 <= i < SOCKETS ==> Share(s.slots[i], a.rx[i], a.tx[i], d.slots[i]))
      && (d.more <==> exists i :: 0 <= i < SOCKETS && Active(d.slots[i]))
  {
    var d := Engine.Dispatch(s.slots, a);
    forall i | 0 <= i < SOCKETS
      ensures Share(s.slots[i], a.rx[i], a.tx[i], d.slots[i]) && (MoreAt(s.slots, a, i) <==> Active(d.slots[i]))
    {
      DispatchAt(s.slots, a, i);
      NeverSlow(s, a, i);
      assert !s.slots[i].rx.disTO;
      OrdinaryShare(s.slots[i], a.rx[i], a.tx[i], i);
      VisitAsks(s.slots[i], a.rx[i], a.tx[i], false);
    }
    MoreExactly(s.slots, a, SOCKETS);
  }
}
