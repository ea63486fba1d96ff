/**
 Runs of the socket engine: any interleaving of API calls, modem activity and passes of
 g_eq_event, together with a record of what the application asked for and was told.
 */
module System {
  import opened Common
  import opened Modem
  import opened Engine

  /** One read the application was told about: the buffer and size given to the call that
      started it, the value returned by the call that reported it, the bytes then found at
      the start of that buffer, the polls it took, and whether it could time out. */
  datatype Read = Read(buf: nat, size: nat, ret: int, bytes: seq<byte>, polls: seq<Poll>, disTO: bool)

  /** The application's record of one socket since it was opened. */
  datatype Hist = Hist(
    attached: bool,            // the last socket_attach gave a call-back
    connected: bool,           // a socket_connect answered OK
    listening: bool,           // a socket_listen answered OK
    started: seq<seq<byte>>,   // the data of every socket_send that started a transfer
    notify: seq<bool>,         // whether a call-back was then attached
    returned: seq<int>,        // what the calls that reported a transfer returned
    asked: Asked,              // the last socket_recv that started a read
    received: seq<Read>)

  /** The arguments of a call that starts a read, and what had been attached and set by then. */
  datatype Asked = Asked(buf: nat, size: nat, attached: bool, listening: bool)

  const NO_HIST := Hist(false, false, false, [], [], [], Asked(0, 0, false, false), [])

  datatype Sys = Sys(slots: seq<Slot>, hists: seq<Hist>)

  datatype Event =
    | Open
    | Close(i: nat)
    | Attach(i: nat, on: bool)
    | Connect(i: nat, opens: seq<bool>, residue: seq<RecvReply>)
    | Listen(i: nat)
    | Send(i: nat, data: Pointer, size: nat, t: SendReply)
    | Recv(i: nat, b: Buffer, size: nat, r: RecvReply)
    | Arrive(i: nat, bytes: seq<byte>)                 // the network brings bytes
    | Provide(i: nat, buf: nat, content: seq<byte>)    // the application sets up a buffer
    | Dispatch(a: Answers)                             // a pass of g_eq_event under the lock

  predicate Live(s: Slot) {
    s.sock.id >= 0
  }

  /** The engine still has a use for buffer `buf`. */
  predicate InUse(s: Slot, buf: nat) {
    s.rx.dptr == buf && (s.rx.state != ReadStart || s.rx.disTO)
  }

  ghost predicate Shaped(s: Sys) {
    |s.hists| == SOCKETS && AllReady(s.slots)
  }

  /** Events that concern one slot. */
  predicate Local(e: Event) {
    !e.Open? && !e.Dispatch?
  }

  /** What the driver demands of its callers: a live handle, a buffer of the stated size, and no
      writing to a buffer that a read is using. */
  predicate EnabledAt(s: Slot, e: Event)
    requires Local(e) && Ready(s)
  {
    match e
    case Close(_) => true
    case Arrive(_, _) => true
    case Provide(_, buf, _) => !InUse(s, buf)
    case Send(_, data, size, _) => Live(s) && size < 0x1_0000_0000 && (data.To? ==> size <= |data.bytes|)
    case Recv(_, b, size, _) => Live(s) && size < 0x1_0000_0000 && Fits(s, b, size)
    case Connect(_, opens, residue) => Live(s) && Connects(s, opens, residue)
    case _ => Live(s)
  }

  ghost predicate Enabled(s: Sys, e: Event)
    requires Shaped(s)
  {
    match e
    case Open => true
    case Dispatch(a) => a.Full()
    case _ => e.i < SOCKETS && EnabledAt(s.slots[e.i], e)
  }

  function Act(s: Slot, e: Event): (s': Slot)
    requires Local(e) && Ready(s) && EnabledAt(s, e)
  {
    match e
    case Close(_) => if Live(s) then CloseSlot(s) else s
    case Attach(_, on) => s.(sock := s.sock.(callback := on))
    case Connect(_, opens, residue) => Engine.Connect(s, opens, residue).slot
    case Listen(_) => if s.sock.connected then s else s.(sock := s.sock.(disTO := true))
    case Send(_, data, size, t) => Engine.Send(s, data, size, t).slot
    case Recv(_, b, size, r) => Engine.Recv(s, b, size, r).slot
    case Arrive(_, bytes) => s.(inb := s.inb.(stream := s.inb.stream + bytes))
    case Provide(_, buf, content) => s.(inb := s.inb.(mem := s.inb.mem[buf := content]))
  }

  /** What the call returns. */
  function Answer(s: Slot, e: Event): int
    requires Local(e) && Ready(s) && EnabledAt(s, e)
  {
    match e
    case Close(_) => if Live(s) then OK else DEVICE_ERROR
    case Connect(_, opens, residue) => Engine.Connect(s, opens, residue).ret
    case Listen(_) => if s.sock.connected then NO_CONNECTION else OK
    case Send(_, data, size, t) => Engine.Send(s, data, size, t).ret
    case Recv(_, b, size, r) => Engine.Recv(s, b, size, r).ret
    case _ => OK
  }

  /** The first `n` bytes of a buffer. */
  function Front(w: Inbound, buf: nat, n: int): seq<byte> {
    if buf in w.mem && 0 <= n <= |w.mem[buf]| then w.mem[buf][..n] else []
  }

  /** What the application writes down about a call. */
  function Note(s: Slot, h: Hist, e: Event): Hist
    requires Local(e) && Ready(s) && EnabledAt(s, e)
  {
    match e
    case Send(_, data, size, t) =>
      if size < 1 || data.Null? then h
      else
        var o := Engine.Send(s, data, size, t);
        h.(started := if s.tx.state == TxIdle then h.started + [data.bytes[..size]] else h.started,
           notify := if s.tx.state == TxIdle then h.notify + [h.attached] else h.notify,
           returned := if o.slot.tx.state == TxIdle then h.returned + [o.ret] else h.returned)
    case Recv(_, b, size, r) =>
      if size < 1 || b.NoBuffer? then h
      else
        var o := Engine.Recv(s, b, size, r);
        var h' := if s.rx.state == ReadStart then h.(asked := Asked(b.buf, size, h.attached, h.listening)) else h;
        if o.slot.rx.state == ReadStart then
          h'.(received := h'.received +
            [Read(h'.asked.buf, h'.asked.size, o.ret, Front(o.slot.inb, h'.asked.buf, o.ret), o.slot.inb.polls,
                  o.slot.rx.disTO)])
        else h'
    case Attach(_, on) => h.(attached := on)
    case Connect(_, _, _) => h.(connected := h.connected || Answer(s, e) == OK)
    case Listen(_) => h.(listening := h.listening || Answer(s, e) == OK)
    case _ => h
  }

  ghost function Next(s: Sys, e: Event): (s': Sys)
    requires Shaped(s) && Enabled(s, e)
    ensures Shaped(s')
  {
    match e
    case Open =>
      var i := FirstFree(s.slots, 0);
      if i == SOCKETS then s
      else Sys(s.slots[i := OpenSlot(s.slots[i], i)], s.hists[i := NO_HIST])
    case Dispatch(a) =>
      DispatchReady(s.slots, a);
      s.(slots := Engine.Dispatch(s.slots, a).slots)
    case _ =>
      ActReady(s.slots[e.i], e);
      Sys(s.slots[e.i := Act(s.slots[e.i], e)], s.hists[e.i := Note(s.slots[e.i], s.hists[e.i], e)])
  }

  /** The next slots and records, one by one. */
  lemma NextIs(s: Sys, e: Event)
    requires Shaped(s) && Enabled(s, e)
    ensures e.Dispatch? ==>
      Next(s, e).slots == Engine.Dispatch(s.slots, e.a).slots && e.a.Full() && Next(s, e).hists == s.hists
    ensures e.Open? ==> forall i :: 0 <= i < SOCKETS ==>
      Next(s, e).slots[i] == if i == FirstFree(s.slots, 0) then OpenSlot(s.slots[i], i) else s.slots[i]
    ensures e.Open? ==> forall i :: 0 <= i < SOCKETS ==>
      Next(s, e).hists[i] == if i == FirstFree(s.slots, 0) then NO_HIST else s.hists[i]
    ensures !e.Open? && !e.Dispatch? ==>
      && Local(e) && e.i < SOCKETS && Ready(s.slots[e.i]) && EnabledAt(s.slots[e.i], e)
      && Next(s, e).slots[e.i] == Act(s.slots[e.i], e)
      && Next(s, e).hists == s.hists[e.i := Note(s.slots[e.i], s.hists[e.i], e)]
      && forall i :: 0 <= i < SOCKETS && i != e.i ==> Next(s, e).slots[i] == s.slots[i]
  {
  }

  /** `es` can happen from `s`, in this order. */
  ghost predicate Possible(s: Sys, es: seq<Event>)
    requires Shaped(s)
    decreases |es|
  {
    es == [] || (Enabled(s, es[0]) && Possible(Next(s, es[0]), es[1..]))
  }

  ghost function After(s: Sys, es: seq<Event>): (s': Sys)
    requires Shaped(s) && Possible(s, es)
    ensures Shaped(s')
    decreases |es|
  {
    if es == [] then s else After(Next(s, es[0]), es[1..])
  }

  /** The state the constructor leaves; the fields it does not set are arbitrary. */
  ghost predicate Initial(s: Sys) {
    && |s.slots| == |s.hists| == SOCKETS
    && forall i :: 0 <= i < SOCKETS ==>
      && s.slots[i] == FirstSlot(s.slots[i])
      && s.slots[i].inb.taken <= |s.slots[i].inb.stream|
  }

  // ---- what a pass of g_eq_event does to one slot ----

  /** The poll of this slot ends its read: data came, or one empty poll too many. */
  predicate EndsRead(s: Slot, r: RecvReply)
    requires Ready(s)
  {
    && Polled(s)
    && var poll := PollOf(r, Moved(s.inb, r, s.rx.reqSize));
       poll.Data? || (poll.Empty? && s.rx.timer >= READ_TICKS && !s.rx.disTO)
  }

  /** The attempt of this slot ends its transfer: the last payload is taken. */
  predicate EndsTransfer(s: Slot, t: SendReply) {
    s.tx.state == TxActive && Claims(t) && s.tx.totalSent + s.tx.reqSize == s.tx.origSize
  }

  /** One slot's share of a pass, given the slow flag left by the lower slots. */
  function Serve(s: Slot, r: RecvReply, t: SendReply, slow: bool): Slot
    requires Ready(s)
  {
    Notify(VisitSlot(s, r, t, slow).slot)
  }

  ghost function SlowAt(slots: seq<Slot>, a: Answers, i: nat): bool
    requires AllReady(slots) && a.Full() && i <= SOCKETS
  {
    FirstLoop(slots, a, i).slow
  }

  lemma {:induction false} FirstLoopAt(slots: seq<Slot>, a: Answers, n: nat, i: nat)
    requires AllReady(slots) && a.Full() && i < n <= SOCKETS
    ensures FirstLoop(slots, a, n).slots[i] == VisitSlot(slots[i], a.rx[i], a.tx[i], SlowAt(slots, a, i)).slot
  {
    FirstLoopStep(slots, a, n - 1);
    if i < n - 1 {
      FirstLoopAt(slots, a, n - 1, i);
    }
  }

  /** A pass serves every slot once, and only the slow flag links one slot to another. */
  lemma DispatchAt(slots: seq<Slot>, a: Answers, i: nat)
    requires AllReady(slots) && a.Full() && i < SOCKETS
    ensures Engine.Dispatch(slots, a).slots[i] == Serve(slots[i], a.rx[i], a.tx[i], SlowAt(slots, a, i))
  {
    FirstLoopAt(slots, a, SOCKETS, i);
  }

  // ---- readiness is kept ----

  /** socket_send touches the transmit half of its slot only, socket_recv the receive half. */
  lemma CallHalves(s: Slot, e: Event)
    requires Local(e) && Ready(s) && EnabledAt(s, e)
    ensures e.Send? ==> Act(s, e) == s.(tx := Act(s, e).tx, out := Act(s, e).out)
    ensures e.Recv? ==> Act(s, e) == s.(rx := Act(s, e).rx, inb := Act(s, e).inb)
    ensures e.Connect? ==> Act(s, e) == s.(sock := s.sock.(connected := Act(s, e).sock.connected), inb := Act(s, e).inb)
  {
  }

  /** Only socket_recv changes the record of reads, and only socket_send that of transfers. */
  lemma NoteHalves(s: Slot, h: Hist, e: Event)
    requires Local(e) && Ready(s) && EnabledAt(s, e)
    ensures var h' := Note(s, h, e);
      && (!e.Recv? ==> h'.received == h.received && h'.asked == h.asked)
      && (!e.Send? ==> h'.started == h.started && h'.notify == h.notify && h'.returned == h.returned)
      && (e.Send? || e.Recv? ==>
            h'.attached == h.attached && h'.connected == h.connected && h'.listening == h.listening)
  {
    hide Engine.Send, Engine.Recv, Engine.Connect, Front;
  }

  /** A connection made throws away all that the modem had for the old one, if it hands it over;
      otherwise nothing that came is touched. */
  lemma ConnectEmptiesTheModem(s: Slot, e: Event)
    requires e.Connect? && Ready(s) && EnabledAt(s, e)
    ensures var w, w' := s.inb, Act(s, e).inb;
      && w'.stream == w.stream && w'.delivered == w.delivered && w'.mem == w.mem && w'.polls == w.polls
      && w'.lost - w.lost == w'.taken - w.taken >= 0
      && (if e.opens == [false, false, false] then w'.taken == w.taken
          else Generous(e.residue) ==> w'.taken == |w.stream|)
  {
    if e.opens != [false, false, false] && Generous(e.residue) {
      assert e.opens[0] || e.opens[1] || e.opens[2];
      NothingIsLeft(s.inb, e.residue);
    }
  }

  lemma SendReady(s: Slot, data: Pointer, size: nat, t: SendReply)
    requires Ready(s) && size < 0x1_0000_0000 && (data.To? ==> size <= |data.bytes|)
    ensures Ready(Engine.Send(s, data, size, t).slot)
  {
  }

  lemma RecvReady(s: Slot, b: Buffer, size: nat, r: RecvReply)
    requires Ready(s) && size < 0x1_0000_0000 && Fits(s, b, size)
    ensures Ready(Engine.Recv(s, b, size, r).slot)
  {
  }

  lemma ActReady(s: Slot, e: Event)
    requires Local(e) && Ready(s) && EnabledAt(s, e)
    ensures Ready(Act(s, e))
  {
    hide Engine.Send, Engine.Recv;
    if e.Send? {
      SendReady(s, e.data, e.size, e.t);
    } else if e.Recv? {
      RecvReady(s, e.b, e.size, e.r);
    }
  }

  /** The two halves of a slot's share of a pass. */
  function TxHalf(s: Slot, t: SendReply): Slot
    requires Ready(s)
  {
    var u := VisitTx(s, t);
    NotifyTx(s.(tx := u.tx, out := u.out))
  }

  function RxHalf(s: Slot, r: RecvReply, slow: bool): Slot
    requires Ready(s)
  {
    var x := SlowedRx(s, r, slow);
    NotifyRx(s.(rx := x.rx, inb := x.inb))
  }

  lemma ServeHalves(s: Slot, r: RecvReply, t: SendReply, slow: bool)
    requires Ready(s)
    ensures var s', u, x := Serve(s, r, t, slow), TxHalf(s, t), RxHalf(s, r, slow);
      s' == Slot(s.sock, u.tx, u.out, x.rx, x.inb)
  {
  }

  lemma RxEventReady(x: Rx, w: Inbound, r: RecvReply)
    requires RxReady(x, w)
    ensures var e := RxEvent(x, w, r);
      && RxReady(e.rx, e.inb) && e.rx.disTO == x.disTO
      && (e.rx.state == x.state || e.rx.state == ReadDocb || e.rx.state == DataAvailable)
  {
  }

  lemma RxHalfReady(s: Slot, r: RecvReply, slow: bool)
    requires Ready(s)
    ensures Ready(RxHalf(s, r, slow))
  {
    hide RxEvent, TxReady;
    if Polled(s) {
      RxEventReady(s.rx, s.inb, r);
    }
  }

  lemma TxHalfReady(s: Slot, t: SendReply)
    requires Ready(s)
    ensures Ready(TxHalf(s, t))
  {
  }

  lemma ServeReady(s: Slot, r: RecvReply, t: SendReply, slow: bool)
    requires Ready(s)
    ensures Ready(Serve(s, r, t, slow))
  {
    ServeHalves(s, r, t, slow);
    RxHalfReady(s, r, slow);
    TxHalfReady(s, t);
  }

  lemma DispatchReady(slots: seq<Slot>, a: Answers)
    requires AllReady(slots) && a.Full()
    ensures AllReady(Engine.Dispatch(slots, a).slots)
  {
    forall i | 0 <= i < SOCKETS ensures Ready(Engine.Dispatch(slots, a).slots[i]) {
      DispatchAt(slots, a, i);
      ServeReady(slots[i], a.rx[i], a.tx[i], SlowAt(slots, a, i));
    }
  }
}
