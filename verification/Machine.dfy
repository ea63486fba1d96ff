/**
 The two threads step by step: an application thread holding txrx_mutex for the length of
 a call, and the event-queue thread inside g_eq_event, each of whose steps may come between
 any two of the other. Every atomic access to scheduled_events is a step of its own.
 */
module Machine {
  import opened Modem
  import opened Engine
  import opened System
  import opened Polling

  datatype Lock = Unheld | ByApp | ByQueue

  /** Where the event-queue thread is. `locked` is the outcome of its trylock. */
  datatype Phase =
    | Idle                     // waiting for a call-back to come due
    | Entered(locked: bool)    // called g_eq_event, tried the lock
    | Counted(locked: bool)    // decremented scheduled_events
    | Served(more: bool)       // ran both loops
    | Leaving                  // rescheduled or not, still has the lock

  datatype State = State(sys: Sys, q: Queue, lock: Lock, phase: Phase)

  datatype Move =
    | Acquire                  // the application takes the lock
    | Call(e: Event)           // what a call does under the lock
    | Release
    | Unlocked(e: Event)       // what happens without the lock
    | Enter                    // a due call-back: g_eq_event up to its trylock
    | Decrement
    | ServeAll(a: Answers)
    | Reschedule
    | Leave

  predicate UnderLock(e: Event) {
    e.Close? || e.Send? || e.Recv?
  }

  ghost predicate CanMove(m: State, v: Move)
    requires Shaped(m.sys)
  {
    match v
    case Acquire => m.lock == Unheld
    case Call(e) => m.lock == ByApp && UnderLock(e) && Enabled(m.sys, e)
    case Release => m.lock == ByApp
    case Unlocked(e) => !UnderLock(e) && !e.Dispatch? && Enabled(m.sys, e)
    case Enter => m.phase == Idle && m.q.pending > 0
    case Decrement => m.phase.Entered?
    case ServeAll(a) => m.phase == Counted(true) && a.Full()
    case Reschedule => m.phase.Served? || m.phase == Counted(false)
    case Leave => m.phase == Leaving
  }

  /** Whether what the application does runs _eq_schedule. */
  predicate SlotSchedules(s: Slot, e: Event)
    requires Local(e) && Ready(s) && EnabledAt(s, e)
  {
    match e
    case Send(_, data, size, t) => Engine.Send(s, data, size, t).schedule
    case Recv(_, b, size, r) => Engine.Recv(s, b, size, r).schedule
    case Listen(_) => !s.sock.connected
    case _ => false
  }

  ghost predicate Schedules(s: Sys, e: Event)
    requires Shaped(s) && Enabled(s, e)
  {
    Local(e) && SlotSchedules(s.slots[e.i], e)
  }

  ghost function Apply(m: State, v: Move): (m': State)
    requires Shaped(m.sys) && CanMove(m, v)
    ensures Shaped(m'.sys)
  {
    match v
    case Acquire => m.(lock := ByApp)
    case Call(e) => Done(m, e)
    case Release => m.(lock := Unheld)
    case Unlocked(e) => Done(m, e)
    case Enter =>
      var q := m.q.(pending := m.q.pending - 1);
      if m.lock == Unheld then m.(q := q, lock := ByQueue, phase := Entered(true))
      else m.(q := q, phase := Entered(false))
    case Decrement => m.(q := Count(m.q), phase := Counted(m.phase.locked))
    case ServeAll(a) =>
      m.(sys := Next(m.sys, Dispatch(a)), phase := Served(Engine.Dispatch(m.sys.slots, a).more))
    case Reschedule =>
      if m.phase.Counted? then m.(q := Schedule(m.q), phase := Idle)
      else m.(q := if m.phase.more then Schedule(m.q) else m.q, phase := Leaving)
    case Leave => m.(lock := Unheld, phase := Idle)
  }

  ghost function Done(m: State, e: Event): (m': State)
    requires Shaped(m.sys) && Enabled(m.sys, e) && !e.Dispatch?
    ensures Shaped(m'.sys)
  {
    m.(sys := Next(m.sys, e), q := if Schedules(m.sys, e) then Schedule(m.q) else m.q)
  }

  ghost predicate CanRun(m: State, vs: seq<Move>)
    requires Shaped(m.sys)
    decreases |vs|
  {
    vs == [] || (CanMove(m, vs[0]) && CanRun(Apply(m, vs[0]), vs[1..]))
  }

  ghost function Ran(m: State, vs: seq<Move>): (m': State)
    requires Shaped(m.sys) && CanRun(m, vs)
    ensures Shaped(m'.sys)
    decreases |vs|
  {
    if vs == [] then m else Ran(Apply(m, vs[0]), vs[1..])
  }

  ghost predicate Start(m: State) {
    Initial(m.sys) && m.q == Queue(0, 0) && m.lock == Unheld && m.phase == Idle
  }

  // ---- the runs of the two threads are runs of the sockets ----

  /** What the moves do to the sockets, in order. */
  function Trace(vs: seq<Move>): seq<Event> {
    if vs == [] then []
    else
      match vs[0]
      case Call(e) => [e] + Trace(vs[1..])
      case Unlocked(e) => [e] + Trace(vs[1..])
      case ServeAll(a) => [Dispatch(a)] + Trace(vs[1..])
      case _ => Trace(vs[1..])
  }

  /** So everything proved of runs of the sockets holds at every step of both threads. */
  lemma {:induction false} TraceIsARun(m: State, vs: seq<Move>)
    requires Shaped(m.sys) && CanRun(m, vs)
    ensures Possible(m.sys, Trace(vs)) && Ran(m, vs).sys == After(m.sys, Trace(vs))
    decreases |vs|
  {
    hide Next, Schedules, Schedule, Count;
    if vs != [] {
      var m1 := Apply(m, vs[0]);
      TraceIsARun(m1, vs[1..]);
      if vs[0].Call? || vs[0].Unlocked? || vs[0].ServeAll? {
        var es := Trace(vs);
        assert es[1..] == Trace(vs[1..]);
        assert Enabled(m.sys, es[0]) && Next(m.sys, es[0]) == m1.sys;
      }
    }
  }

  // ---- when _eq_schedule is called, and what it does ----

  /** A call schedules exactly when it starts something for the background, or sets listening. */
  lemma SchedulesExactly(s: Slot, e: Event)
    requires Local(e) && Ready(s) && EnabledAt(s, e)
    ensures e.Send? ==> (SlotSchedules(s, e) <==> s.tx.state != TxActive && Act(s, e).tx.state == TxActive)
    ensures e.Recv? ==> (SlotSchedules(s, e) <==> s.rx.state != ReadActive && Act(s, e).rx.state == ReadActive)
    ensures e.Listen? ==> (SlotSchedules(s, e) <==> Answer(s, e) == OK)
    ensures !e.Send? && !e.Recv? && !e.Listen? ==> !SlotSchedules(s, e)
  {
    hide Sent, Received, ToInt32, PollOf;
  }

  function Scheduled(q: Queue, k: nat): Queue {
    if k == 0 then q else Schedule(Scheduled(q, k - 1))
  }

  /** Each call adds a call-back until five are pending, and no more after that. */
  lemma {:induction false} ScheduledUpToFive(q: Queue, k: nat)
    requires q.scheduled == q.pending <= SOCKETS
    ensures var n := if q.pending + k <= 5 then q.pending + k else 5; Scheduled(q, k) == Queue(n, n)
  {
    if k > 0 {
      ScheduledUpToFive(q, k - 1);
    }
  }

  // ---- one call-back from end to end ----

  lemma RanStep(m: State, vs: seq<Move>, m1: State)
    requires Shaped(m.sys) && vs != [] && CanMove(m, vs[0]) && Apply(m, vs[0]) == m1
    requires CanRun(m1, vs[1..])
    ensures CanRun(m, vs) && Ran(m, vs) == Ran(m1, vs[1..])
  {
  }

  /** A call-back that gets the lock, undisturbed. */
  lemma ServedCallBack(m: State, a: Answers)
    requires Shaped(m.sys) && a.Full() && m.q.pending > 0 && m.lock == Unheld && m.phase == Idle
    ensures var vs := [Enter, Decrement, ServeAll(a), Reschedule, Leave];
      var q := m.q.(pending := m.q.pending - 1);
      CanRun(m, vs) && Ran(m, vs) ==
        State(Next(m.sys, Dispatch(a)), AfterEvent(q, true, Engine.Dispatch(m.sys.slots, a).more), Unheld, Idle)
  {
    hide Next;
    var vs := [Enter, Decrement, ServeAll(a), Reschedule, Leave];
    var m1 := Apply(m, Enter);
    var m2 := Apply(m1, Decrement);
    var m3 := Apply(m2, ServeAll(a));
    var m4 := Apply(m3, Reschedule);
    var m5 := Apply(m4, Leave);
    RanStep(m4, vs[4..], m5);
    RanStep(m3, vs[3..], m4);
    RanStep(m2, vs[2..], m3);
    RanStep(m1, vs[1..], m2);
    RanStep(m, vs, m1);
  }

  /** A call-back that does not. */
  lemma FailedCallBack(m: State)
    requires Shaped(m.sys) && m.q.pending > 0 && m.lock != Unheld && m.phase == Idle
    ensures var vs := [Enter, Decrement, Reschedule];
      CanRun(m, vs) && Ran(m, vs) == m.(q := AfterEvent(m.q.(pending := m.q.pending - 1), false, false))
  {
    var vs := [Enter, Decrement, Reschedule];
    var m1 := Apply(m, Enter);
    var m2 := Apply(m1, Decrement);
    var m3 := Apply(m2, Reschedule);
    RanStep(m2, vs[2..], m3);
    RanStep(m1, vs[1..], m2);
    RanStep(m, vs, m1);
  }

  // ---- no lost wake-up ----

  /** The counter is the number of call-backs in the queue, plus the one being entered. */
  ghost predicate Counting(m: State) {
    && m.q.scheduled == m.q.pending + (if m.phase.Entered? then 1 else 0) <= SOCKETS
    && (m.lock == ByQueue <==> m.phase in {Entered(true), Counted(true), Served(true), Served(false), Leaving})
  }

  ghost predicate SomeActive(s: Sys) {
    exists i :: 0 <= i < |s.slots| && Active(s.slots[i])
  }

  /** Somebody will look at the active sockets: a call-back is due, or the event-queue thread
      is on its way to the loops or to rescheduling. */
  ghost predicate Awake(m: State) {
    m.q.pending > 0 || m.phase.Entered? || m.phase.Counted? || m.phase == Served(true)
  }

  ghost predicate Alert(m: State) {
    Counting(m) && (SomeActive(m.sys) ==> Awake(m))
  }

  /** A call that makes a socket active schedules. */
  lemma NewlyActiveSchedules(s: Sys, e: Event)
    requires Shaped(s) && Enabled(s, e) && !e.Dispatch? && SomeActive(Next(s, e)) && !SomeActive(s)
    ensures Schedules(s, e)
  {
    var i :| 0 <= i < SOCKETS && Active(Next(s, e).slots[i]);
    assert !Active(s.slots[i]);
    if Local(e) && e.i == i {
      BecomesActive(s.slots[i], e);
    }
  }

  lemma BecomesActive(s: Slot, e: Event)
    requires Local(e) && Ready(s) && EnabledAt(s, e) && !Active(s) && Active(Act(s, e))
    ensures e.Send? || e.Recv?
    ensures e.Send? ==> Engine.Send(s, e.data, e.size, e.t).schedule
    ensures e.Recv? ==> Engine.Recv(s, e.b, e.size, e.r).schedule
  {
    CallHalves(s, e);
  }

  lemma DoneKeepsAlert(m: State, e: Event)
    requires Shaped(m.sys) && Enabled(m.sys, e) && !e.Dispatch? && Alert(m)
    ensures Alert(Done(m, e))
  {
    if SomeActive(Next(m.sys, e)) && !SomeActive(m.sys) {
      NewlyActiveSchedules(m.sys, e);
    }
  }

  lemma ServingKeepsAlert(m: State, a: Answers)
    requires Shaped(m.sys) && CanMove(m, ServeAll(a)) && Alert(m)
    ensures Alert(Apply(m, ServeAll(a)))
  {
    var m' := Apply(m, ServeAll(a));
    NextIs(m.sys, Dispatch(a));
    hide Next, Engine.Dispatch, Active;
    if SomeActive(m'.sys) {
      var i :| 0 <= i < SOCKETS && Active(m'.sys.slots[i]);
      ActiveIsRescheduled(m.sys.slots, a, i);
    }
  }

  lemma MoveKeepsAlert(m: State, v: Move)
    requires Shaped(m.sys) && CanMove(m, v) && Alert(m)
    ensures Alert(Apply(m, v))
  {
    hide Next, Schedules, SomeActive, Engine.Dispatch;
    if v.Call? || v.Unlocked? {
      hide Done;
      DoneKeepsAlert(m, v.e);
    } else if v.ServeAll? {
      ServingKeepsAlert(m, v.a);
    }
  }

  /**
   No lost wake-up. Under every interleaving of the two threads' steps, failed trylocks
   included: scheduled_events is the number of pending call-backs plus the one just entered,
   at most 5; and whenever a socket is active a call-back is pending or the event-queue thread
   is still going to serve the sockets or to reschedule itself. In particular, when that
   thread is idle, a call-back is pending.
   */
  lemma NoLostWakeUp(m0: State, vs: seq<Move>)
    requires Start(m0) && CanRun(m0, vs)
    ensures var m := Ran(m0, vs);
      && m.q.scheduled == m.q.pending + (if m.phase.Entered? then 1 else 0) <= SOCKETS
      && (SomeActive(m.sys) ==> Awake(m))
      && (SomeActive(m.sys) && m.phase == Idle ==> m.q.pending > 0)
  {
    RunKeepsAlert(m0, vs);
  }

  lemma {:induction false} RunKeepsAlert(m: State, vs: seq<Move>)
    requires Shaped(m.sys) && CanRun(m, vs) && Alert(m)
    ensures Alert(Ran(m, vs))
    decreases |vs|
  {
    if vs != [] {
      MoveKeepsAlert(m, vs[0]);
      RunKeepsAlert(Apply(m, vs[0]), vs[1..]);
    }
  }
}
