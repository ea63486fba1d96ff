/**
 The class of Driver.dfy carries out the transition system of System.dfy, event by event; so
 what is proved of its runs holds of every sequence of calls on the class.
 */
module Refinement {
  import opened Modem
  import opened Engine
  import opened System
  import opened Driver
  import opened Machine
  import opened Polling

  /** What the methods rely on beside Valid(): the invariants proved of all runs. */
  ghost predicate Sound(d: BG96Interface)
    requires d.Valid()
    reads d, d.sock, d.tx, d.out, d.rx, d.inb
  {
    AllReady(d.Slots()) && forall i :: 0 <= i < SOCKETS ==> Steady(d.SlotAt(i), i)
  }

  /** The constructor leaves an initial state. */
  method Create(slots: seq<Slot>, ghost h: seq<Hist>) returns (d: BG96Interface)
    requires |slots| == |h| == SOCKETS && forall i :: 0 <= i < SOCKETS ==> slots[i].inb.taken <= |slots[i].inb.stream|
    ensures fresh(d) && d.Valid() && Sound(d) && Initial(Sys(d.Slots(), h)) && d.TheQueue() == Queue(0, 0)
  {
    d := new BG96Interface(slots);
    assert forall i :: 0 <= i < SOCKETS ==> d.Slots()[i] == d.SlotAt(i);
  }

  /** A call on one socket, or one of the two things the outside does. */
  method PerformLocal(d: BG96Interface, e: Event) returns (ret: int)
    requires d.Valid() && Sound(d) && Local(e) && e.i < SOCKETS && Ready(d.SlotAt(e.i)) && EnabledAt(d.SlotAt(e.i), e)
    modifies d, d.sock, d.tx, d.out, d.rx, d.inb
    ensures ret == Answer(old(d.SlotAt(e.i)), e)
    ensures d.SlotAt(e.i) == Act(old(d.SlotAt(e.i)), e) && d.Others(e.i)
    ensures d.TheQueue() == if SlotSchedules(old(d.SlotAt(e.i)), e) then Schedule(old(d.TheQueue()))
                            else old(d.TheQueue())
  {
    hide Engine.Send, Engine.Recv, Engine.Connect, Connects, Schedule, CloseSlot;
    hide AllReady, Fits, Ready, TxReady, RxReady;
    assert Steady(d.SlotAt(e.i), e.i);
    hide Sound;
    ret := OK;
    match e
    case Close(i) =>
      ret := d.SocketClose(i);
    case Attach(i, on) =>
      d.SocketAttach(i, on);
    case Connect(i, opens, residue) =>
      ret := d.SocketConnect(i, opens, residue);
    case Listen(i) =>
      ret := d.SocketListen(i);
    case Send(i, data, size, t) =>
      ret := d.SocketSend(i, data, size, t);
    case Recv(i, b, size, r) =>
      ret := d.SocketRecv(i, b, size, r);
    case Arrive(i, bytes) =>
      d.inb[i] := d.inb[i].(stream := d.inb[i].stream + bytes);
    case Provide(i, buf, content) =>
      d.inb[i] := d.inb[i].(mem := d.inb[i].mem[buf := content]);
  }

  /** socket_open. */
  method PerformOpen(d: BG96Interface, ghost h: seq<Hist>) returns (ret: int)
    requires d.Valid() && Sound(d) && |h| == SOCKETS
    modifies d.sock, d.tx, d.out, d.rx, d.inb
    ensures d.Slots() == Next(Sys(old(d.Slots()), h), Open).slots
    ensures ret == if FirstFree(old(d.Slots()), 0) == SOCKETS then NO_SOCKET else OK
  {
    hide Next, Ready, Steady;
    ghost var s := Sys(d.Slots(), h);
    NextIs(s, Open);
    var handle;
    ret, handle := d.SocketOpen();
    SlotwiseEqual(d.Slots(), Next(s, Open).slots);
  }

  /** Every event but a call-back. */
  method PerformCall(d: BG96Interface, e: Event, ghost h: seq<Hist>) returns (ret: int)
    requires d.Valid() && Sound(d) && |h| == SOCKETS && Enabled(Sys(d.Slots(), h), e) && !e.Dispatch?
    modifies d, d.sock, d.tx, d.out, d.rx, d.inb
    ensures d.Slots() == Next(Sys(old(d.Slots()), h), e).slots
    ensures d.TheQueue() == QueueAfter(Sys(old(d.Slots()), h), e, old(d.TheQueue()))
    ensures Local(e) ==> ret == Answer(old(d.Slots())[e.i], e)
  {
    hide Next, Act, Ready, EnabledAt, Schedule, Steady;
    if e.Open? {
      ret := PerformOpen(d, h);
    } else {
      ghost var s := Sys(d.Slots(), h);
      NextIs(s, e);
      hide Sound;
      ret := PerformLocal(d, e);
      SlotwiseEqual(d.Slots(), Next(s, e).slots);
    }
  }

  /** Every event; a Dispatch is a due call-back that gets the lock. */
  method Perform(d: BG96Interface, e: Event, ghost h: seq<Hist>) returns (ret: int)
    requires d.Valid() && Sound(d) && |h| == SOCKETS && Enabled(Sys(d.Slots(), h), e)
    requires e.Dispatch? ==> d.pending > 0
    modifies d, d.sock, d.tx, d.out, d.rx, d.inb
    ensures d.Slots() == Next(Sys(old(d.Slots()), h), e).slots && Sound(d)
    ensures d.TheQueue() == QueueAfter(Sys(old(d.Slots()), h), e, old(d.TheQueue()))
    ensures Local(e) ==> ret == Answer(old(d.Slots())[e.i], e)
  {
    hide Next, Act, Ready, EnabledAt, Engine.Dispatch, Schedule, Count, Steady, Answer;
    ghost var s := Sys(d.Slots(), h);
    if e.Dispatch? {
      NextIs(s, e);
      d.pending := d.pending - 1;
      d.GEqEvent(true, e.a);
      ret := OK;
    } else {
      ret := PerformCall(d, e, h);
    }
    StaysSound(s, e);
    assert forall i :: 0 <= i < SOCKETS ==> d.SlotAt(i) == d.Slots()[i];
  }

  /** A due call-back that does not get the lock leaves the slots alone, and the queue as the
      three steps of Machine.FailedCallBack do. */
  method PerformMissed(d: BG96Interface, a: Answers, ghost m: State)
    requires d.Valid() && Sound(d) && a.Full() && d.pending > 0
    requires m.sys.slots == d.Slots() && Shaped(m.sys) && m.q == d.TheQueue() && m.lock != Unheld && m.phase == Idle
    modifies d, d.tx, d.out, d.rx, d.inb
    ensures var vs := [Enter, Decrement, Reschedule];
      CanRun(m, vs) && d.Slots() == Ran(m, vs).sys.slots && d.TheQueue() == Ran(m, vs).q && Sound(d)
  {
    hide Ready, Engine.Dispatch, Schedule, Count, Steady, Ran, CanRun;
    FailedCallBack(m);
    d.pending := d.pending - 1;
    d.GEqEvent(false, a);
    assert forall i :: 0 <= i < SOCKETS ==> d.SlotAt(i) == d.Slots()[i];
  }

  lemma StaysSound(s: Sys, e: Event)
    requires Shaped(s) && Enabled(s, e) && forall i :: 0 <= i < SOCKETS ==> Steady(s.slots[i], i)
    ensures AllReady(Next(s, e).slots) && forall i :: 0 <= i < SOCKETS ==> Steady(Next(s, e).slots[i], i)
  {
    forall i | 0 <= i < SOCKETS ensures Steady(Next(s, e).slots[i], i) {
      NextKeepsSteadyAt(s, e, i);
    }
  }

  lemma SlotwiseEqual(a: seq<Slot>, b: seq<Slot>)
    requires |a| == |b| == SOCKETS && forall i :: 0 <= i < SOCKETS ==> a[i] == b[i]
    ensures a == b
  {
  }

  ghost function QueueAfter(s: Sys, e: Event, q: Engine.Queue): Engine.Queue
    requires Shaped(s) && Enabled(s, e) && (e.Dispatch? ==> q.pending > 0)
  {
    if e.Dispatch? then AfterEvent(q.(pending := q.pending - 1), true, Engine.Dispatch(s.slots, e.a).more)
    else if Schedules(s, e) then Schedule(q)
    else q
  }
}
