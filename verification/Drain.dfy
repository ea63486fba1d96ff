/**
 Left alone by the application, with a modem that takes every chunk and reads without errors,
 the event queue finishes everything that was started and falls silent, whatever the network
 goes on bringing meanwhile.
 */
module Drain {
  import opened Common
  import opened Modem
  import opened Engine
  import opened System
  import opened Transmit
  import opened Receive
  import opened Timeouts
  import opened Polling
  import opened Machine

  /** A poll that succeeds, empty or not. */
  predicate Clean(r: RecvReply) {
    r.Header? && r.closed && r.count != DEVICE_ERROR
  }

  /** Every send is honestly accepted and every poll succeeds. */
  predicate Benign(a: Answers) {
    a.Full() && forall i :: 0 <= i < SOCKETS ==> Accepts(a.tx[i]) && Clean(a.rx[i])
  }

  /** What is left to do for one socket: empty polls until a read times out, chunks of a transfer. */
  function SlotWork(s: Slot): int {
    (if s.rx.state == ReadActive then READ_TICKS + 1 - s.rx.timer else 0) +
    (if s.tx.state == TxActive && s.tx.totalSent < s.tx.origSize
     then ChunkCount(s.tx.origSize - s.tx.totalSent) else 0)
  }

  function Work(slots: seq<Slot>): int
    requires |slots| == SOCKETS
  {
    SlotWork(slots[0]) + SlotWork(slots[1]) + SlotWork(slots[2]) + SlotWork(slots[3]) + SlotWork(slots[4])
  }

  /** One slot's share of a benign pass brings every activity in it one step nearer its end. */
  lemma ShareDoesWork(s: Slot, h: Hist, r: RecvReply, t: SendReply)
    requires Ready(s) && Calm(s, h) && Accepts(t) && Clean(r)
    ensures var s' := Serve(s, r, t, false);
      && 0 <= SlotWork(s') && (if Active(s) then SlotWork(s') < SlotWork(s) else SlotWork(s') == SlotWork(s))
  {
    ServeHalves(s, r, t, false);
    RxShareDoesWork(s, h, r);
    hide Serve, VisitRx, RxHalf;
  }

  lemma CalmTick(x: Rx, w: Inbound, h: Hist, r: RecvReply)
    requires Reading(x, w, h) && x.state == ReadActive && !x.disTO && 0 <= x.timer <= READ_TICKS && Clean(r)
    ensures var e := RxEvent(x, w, r);
      e.rx.state == ReadActive ==> e.rx.timer == x.timer + 1 <= READ_TICKS
  {
  }

  lemma RxShareDoesWork(s: Slot, h: Hist, r: RecvReply)
    requires Ready(s) && Calm(s, h) && Clean(r)
    ensures var x, x' := s.rx, RxHalf(s, r, false).rx;
      if x.state == ReadActive then
        0 <= x.timer <= READ_TICKS &&
        (x'.state == ReadActive ==> x'.timer == x.timer + 1 <= READ_TICKS)
      else x'.state != ReadActive
  {
    if s.rx.state == ReadActive {
      CalmTimer(s, h);
      NotOverdue(s, h, r);
      CalmTick(s.rx, s.inb, h, r);
    }
  }

  // ---- a silent application ----

  /** What goes on when the application makes no calls and the modem is benign: steps of the
      event-queue thread, bytes arriving, and the application setting up buffers. */
  predicate Silent(v: Move) {
    match v
    case Unlocked(e) => e.Arrive? || e.Provide?
    case ServeAll(a) => Benign(a)
    case Enter => true
    case Decrement => true
    case Reschedule => true
    case Leave => true
    case _ => false
  }

  ghost predicate AllSilent(vs: seq<Move>) {
    forall k :: 0 <= k < |vs| ==> Silent(vs[k])
  }

  /** The application is in no call, and what holds in all runs without listeners holds. */
  ghost predicate Settled(m: State) {
    && Shaped(m.sys) && Alert(m) && m.lock != ByApp
    && AllTx(m.sys) && AllRx(m.sys) && AllSteady(m.sys)
  }

  lemma NextKeepsSettled(s: Sys, e: Event)
    requires Shaped(s) && Enabled(s, e) && !e.Listen? && AllTx(s) && AllRx(s) && AllSteady(s)
    ensures AllTx(Next(s, e)) && AllRx(Next(s, e)) && AllSteady(Next(s, e))
  {
    NextKeepsTx(s, e);
    NextKeepsCalm(s, e);
    forall i | 0 <= i < SOCKETS ensures Steady(Next(s, e).slots[i], i) {
      NextKeepsSteadyAt(s, e, i);
    }
  }

  lemma MoveKeepsSettled(m: State, v: Move)
    requires Settled(m) && CanMove(m, v) && Silent(v)
    ensures Settled(Apply(m, v))
  {
    hide Next, AllTx, AllRx, AllSteady, Schedules, Alert, Benign;
    MoveKeepsAlert(m, v);
    if v.ServeAll? {
      NextKeepsSettled(m.sys, Dispatch(v.a));
    } else if v.Unlocked? {
      NextKeepsSettled(m.sys, v.e);
    }
  }

  predicate Falls(s: Slot, s': Slot) {
    && 0 <= SlotWork(s') && (Active(s') ==> Active(s))
    && (if Active(s) then SlotWork(s') < SlotWork(s) else SlotWork(s') == SlotWork(s))
  }

  lemma SlotFalls(s0: Sys, a: Answers, i: nat)
    requires Shaped(s0) && AllRx(s0) && AllTx(s0) && Benign(a) && i < SOCKETS
    ensures Falls(s0.slots[i], Engine.Dispatch(s0.slots, a).slots[i])
  {
    var s := s0.slots[i];
    DispatchAt(s0.slots, a, i);
    NeverSlow(s0, a, i);
    ShareDoesWork(s, s0.hists[i], a.rx[i], a.tx[i]);
    hide SlotWork, RxHalf;
    ServeHalves(s, a.rx[i], a.tx[i], false);
    RxShareDoesWork(s, s0.hists[i], a.rx[i]);
  }

  lemma WorkFalls(slots: seq<Slot>, slots': seq<Slot>)
    requires |slots| == |slots'| == SOCKETS && forall i :: 0 <= i < SOCKETS ==> Falls(slots[i], slots'[i])
    ensures 0 <= Work(slots')
    ensures if exists i :: 0 <= i < SOCKETS && Active(slots[i]) then Work(slots') < Work(slots)
            else Work(slots') == Work(slots) && forall i :: 0 <= i < SOCKETS ==> !Active(slots'[i])
  {
    hide SlotWork, Active;
    assert Falls(slots[0], slots'[0]) && Falls(slots[1], slots'[1]) && Falls(slots[2], slots'[2])
      && Falls(slots[3], slots'[3]) && Falls(slots[4], slots'[4]);
  }

  /** A benign pass does a part of the work, if there is any. */
  lemma PassFalls(s: Sys, a: Answers)
    requires Shaped(s) && AllTx(s) && AllRx(s) && AllSteady(s) && Benign(a)
    ensures var d := Engine.Dispatch(s.slots, a);
      && (if SomeActive(s) then Work(d.slots) < Work(s.slots) else Work(d.slots) == Work(s.slots))
      && (d.more ==> SomeActive(s))
  {
    hide SlotWork, Active, Falls, Work, Engine.Dispatch, AllTx, AllRx, AllSteady;
    var d := Engine.Dispatch(s.slots, a);
    forall i | 0 <= i < SOCKETS ensures Falls(s.slots[i], d.slots[i]) {
      SlotFalls(s, a, i);
    }
    WorkFalls(s.slots, d.slots);
    PointwiseAt(s, a);
  }

  lemma WorkIsNatural(s: Sys)
    requires Shaped(s) && AllRx(s)
    ensures Work(s.slots) >= 0
  {
    forall i | 0 <= i < SOCKETS ensures SlotWork(s.slots[i]) >= 0 {
      if s.slots[i].rx.state == ReadActive {
        CalmTimer(s.slots[i], s.hists[i]);
      }
    }
  }

  // ---- the measure ----

  /** The event-queue thread is going to reschedule itself, as far as it knows. */
  predicate Returning(p: Phase) {
    p == Served(true) || p == Entered(false) || p == Counted(false)
  }

  /** How many call-backs can still be entered. */
  function Due(m: State): int
    requires |m.sys.slots| == SOCKETS
  {
    Work(m.sys.slots) + Min(SOCKETS, m.q.pending + if Returning(m.phase) then 1 else 0)
  }

  /** How many steps of the current call-back are left. */
  function StepsLeft(p: Phase): nat {
    match p
    case Idle => 0
    case Entered(locked) => if locked then 4 else 2
    case Counted(locked) => if locked then 3 else 1
    case Served(_) => 2
    case Leaving => 1
  }

  function Entering(v: Move): nat {
    if v.Enter? then 1 else 0
  }

  /** A step of the event-queue thread. */
  function Stepping(v: Move): nat {
    if v.Enter? || v.Decrement? || v.ServeAll? || v.Reschedule? || v.Leave? then 1 else 0
  }

  /** Every step of the event-queue thread brings the end nearer; arriving bytes change nothing. */
  lemma MoveFalls(m: State, v: Move)
    requires Settled(m) && CanMove(m, v) && Silent(v)
    ensures var m' := Apply(m, v);
      && |m'.sys.slots| == SOCKETS
      && Due(m') + Entering(v) <= Due(m)
      && 5 * Due(m') + StepsLeft(m'.phase) + Stepping(v) <= 5 * Due(m) + StepsLeft(m.phase)
  {
    hide SlotWork, Work, Next, AllTx, AllRx, AllSteady, Benign, SomeActive, Schedules, Engine.Dispatch;
    if v.ServeAll? {
      NextIs(m.sys, Dispatch(v.a));
      PassFalls(m.sys, v.a);
    } else if v.Unlocked? {
      OutsideDoesNoWork(m.sys, v.e);
    }
  }

  lemma OutsideDoesNoWork(s: Sys, e: Event)
    requires Shaped(s) && Enabled(s, e) && (e.Arrive? || e.Provide?)
    ensures Work(Next(s, e).slots) == Work(s.slots) && !Schedules(s, e)
  {
    NextIs(s, e);
    hide Next;
    forall i | 0 <= i < SOCKETS ensures SlotWork(Next(s, e).slots[i]) == SlotWork(s.slots[i]) {
    }
  }

  function Entries(vs: seq<Move>): nat {
    if vs == [] then 0 else Entering(vs[0]) + Entries(vs[1..])
  }

  function Steps(vs: seq<Move>): nat {
    if vs == [] then 0 else Stepping(vs[0]) + Steps(vs[1..])
  }

  lemma {:induction false} RunFalls(m: State, vs: seq<Move>)
    requires Settled(m) && CanRun(m, vs) && AllSilent(vs)
    ensures Settled(Ran(m, vs))
    ensures Due(Ran(m, vs)) + Entries(vs) <= Due(m)
    ensures 5 * Due(Ran(m, vs)) + StepsLeft(Ran(m, vs).phase) + Steps(vs) <= 5 * Due(m) + StepsLeft(m.phase)
    decreases |vs|
  {
    hide Due, StepsLeft, AllTx, AllRx, AllSteady, Alert, Apply, CanMove, Silent;
    if vs != [] {
      MoveKeepsSettled(m, vs[0]);
      MoveFalls(m, vs[0]);
      RunFalls(Apply(m, vs[0]), vs[1..]);
    }
  }

  lemma QuietRunsSettle(m0: State, vs: seq<Move>)
    requires Start(m0) && CanRun(m0, vs) && Quiet(Trace(vs)) && Ran(m0, vs).lock != ByApp
    ensures Settled(Ran(m0, vs))
  {
    hide Next, CanRun, Ran, Trace, Possible, After;
    TraceIsARun(m0, vs);
    RunKeepsAlert(m0, vs);
    RunKeepsTx(m0.sys, Trace(vs));
    RunKeepsCalm(m0.sys, Trace(vs));
    RunKeepsSteady(m0.sys, Trace(vs));
  }

  // ---- the result ----

  /** Nothing is pending or active, and the modem was given every byte of every transfer started. */
  ghost predicate Drained(m: State) {
    && m.q == Queue(0, 0) && m.lock == Unheld && m.phase == Idle
    && |m.sys.slots| == |m.sys.hists| == SOCKETS && !SomeActive(m.sys)
    && forall i :: 0 <= i < SOCKETS && Live(m.sys.slots[i]) ==>
         m.sys.slots[i].out.wire == AllChunks(m.sys.hists[i].started)
  }

  /** The event-queue thread can take a step. */
  ghost predicate CanStep(m: State)
    requires Shaped(m.sys)
  {
    exists v :: Silent(v) && Stepping(v) == 1 && CanMove(m, v)
  }

  lemma DrainedOrStepping(m: State)
    requires Settled(m)
    ensures Drained(m) || CanStep(m)
  {
    var quiet := Answers(seq(SOCKETS, _ => Header(0, true)), seq(SOCKETS, _ => SendReply(true, true, 1, true)));
    assert Silent(ServeAll(quiet)) && Silent(Enter) && Silent(Decrement) && Silent(Reschedule) && Silent(Leave);
    if m.phase == Idle && m.q.pending == 0 {
      AtRest(m);
    } else {
      hide AllTx, AllRx, AllSteady, SomeActive;
      var v := match m.phase
        case Idle => Enter
        case Entered(_) => Decrement
        case Counted(locked) => if locked then ServeAll(quiet) else Reschedule
        case Served(_) => Reschedule
        case Leaving => Leave;
      assert CanMove(m, v) && Stepping(v) == 1;
    }
  }

  lemma AtRest(m: State)
    requires Settled(m) && m.phase == Idle && m.q.pending == 0
    ensures Drained(m)
  {
    forall i | 0 <= i < SOCKETS && Live(m.sys.slots[i])
      ensures m.sys.slots[i].out.wire == AllChunks(m.sys.hists[i].started)
    {
      assert !Active(m.sys.slots[i]);
      assert TxInv(m.sys.slots[i], m.sys.hists[i]);
    }
  }

  lemma SettledDrains(m: State, ws: seq<Move>)
    requires Settled(m) && CanRun(m, ws) && AllSilent(ws)
    ensures Entries(ws) <= Work(m.sys.slots) + SOCKETS
    ensures Steps(ws) <= 5 * (Work(m.sys.slots) + SOCKETS) + 4
    ensures Drained(Ran(m, ws)) || CanStep(Ran(m, ws))
  {
    hide Next, Work, CanRun, Ran, Drained, CanStep, AllTx, AllRx, AllSteady, AllSilent;
    RunFalls(m, ws);
    WorkIsNatural(Ran(m, ws).sys);
    DrainedOrStepping(Ran(m, ws));
  }

  /**
   Everything started is finished. After any run `vs` without socket_listen, from wherever the
   event-queue thread then is, let the application be silent and the modem benign, and let bytes
   arrive as they like. However the run goes on, at most Work + 5 call-backs are entered, and
   the event-queue thread takes at most five steps for each, beside the four it may still owe;
   and it is stopped by nothing but the end, at which no call-back is pending, no socket active,
   and every transfer ever started has been given to the modem whole.
   */
  lemma {:induction false} TheQueueDrains(m0: State, vs: seq<Move>, ws: seq<Move>)
    requires Start(m0) && CanRun(m0, vs) && Quiet(Trace(vs)) && Ran(m0, vs).lock != ByApp
    requires CanRun(Ran(m0, vs), ws) && AllSilent(ws)
    ensures var m := Ran(m0, vs);
      && Entries(ws) <= Work(m.sys.slots) + SOCKETS
      && Steps(ws) <= 5 * (Work(m.sys.slots) + SOCKETS) + 4
      && (Drained(Ran(m, ws)) || CanStep(Ran(m, ws)))
  {
    QuietRunsSettle(m0, vs);
    SettledDrains(Ran(m0, vs), ws);
  }
}
