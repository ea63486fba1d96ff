/**
 What every operation of the socket engine does to one socket slot, as functions on values.
 The class in Driver.dfy is proved against these; System.dfy composes them into runs.
 */
module Engine {
  import opened Common
  import opened Modem

  const SOCKETS: nat := 5
  const READ_TIMEOUT_MS: int := 30000
  const EQ_FREQ: int := 50
  const EQ_FREQ_SLOW: int := 2000

  /** The 601st consecutive empty poll ends an ordinary read. */
  const READ_TICKS: int := READ_TIMEOUT_MS / EQ_FREQ
  const SLOW_TICKS: int := (READ_TIMEOUT_MS / EQ_FREQ) * (EQ_FREQ_SLOW / EQ_FREQ)

  datatype TxState = TxIdle | TxStarting | TxActive | TxComplete | TxDocb
  datatype RxState = ReadInit | ReadStart | ReadActive | ReadDocb | DataAvailable

  /** `data` is the buffer m_tx_dptr points into, `dptr` the offset it points at. */
  datatype Tx = Tx(state: TxState, data: seq<byte>, dptr: nat, origSize: nat, reqSize: nat,
                   totalSent: nat, callback: bool)

  /** `dptr` names the buffer m_rx_dptr points at. */
  datatype Rx = Rx(state: RxState, dptr: nat, reqSize: nat, timer: int, disTO: bool,
                   callback: bool, returnCnt: nat)

  datatype Sock = Sock(id: int, disTO: bool, connected: bool, callback: bool)

  datatype Slot = Slot(sock: Sock, tx: Tx, out: Outbound, rx: Rx, inb: Inbound)

  /** A pointer argument: NULL, or the start of an object of `|bytes|` bytes. */
  datatype Pointer = Null | To(bytes: seq<byte>)

  /** The C conversion of a uint32_t to int, as in the return statements. */
  function ToInt32(n: nat): int {
    var m := n % 0x1_0000_0000;
    if m < 0x8000_0000 then m else m - 0x1_0000_0000
  }

  /** A transfer can be continued: the rest of the buffer starts at the pointer. */
  predicate TxReady(t: Tx) {
    && t.origSize == |t.data| < 0x1_0000_0000
    && t.dptr == t.totalSent < t.origSize
    && t.reqSize == Min(t.origSize - t.totalSent, BUFF_SIZE)
  }

  /** A read can be polled: the modem cannot write past the application's buffer. */
  predicate RxReady(x: Rx, w: Inbound) {
    && w.taken <= |w.stream|
    && x.dptr in w.mem && x.reqSize <= |w.mem[x.dptr]|
  }

  /** The guard under which g_eq_event polls the modem for a socket. */
  predicate Polled(s: Slot) {
    s.rx.state == ReadActive || s.rx.disTO
  }

  /** What the operations below rely on. */
  predicate Ready(s: Slot) {
    && s.inb.taken <= |s.inb.stream|
    && (s.tx.state == TxActive ==> TxReady(s.tx))
    && (Polled(s) ==> RxReady(s.rx, s.inb))
  }

  /** A transfer after tx_event, and whether it asked for more (EVENT_GETMORE). */
  datatype TxStep = TxStep(tx: Tx, out: Outbound, more: bool)

  function TxEvent(t: Tx, w: Outbound, r: SendReply): TxStep
    requires TxReady(t)
  {
    var w' := Sent(w, r, t.data[t.dptr..t.dptr + t.reqSize]);
    var total := t.totalSent + t.reqSize;
    if !Claims(r) then
      TxStep(t, w', true)
    else if total < t.origSize then
      TxStep(t.(totalSent := total, dptr := t.dptr + t.reqSize, reqSize := Min(t.origSize - total, BUFF_SIZE)),
             w', true)
    else
      TxStep(t.(totalSent := total, state := if t.callback then TxDocb else TxComplete), w', false)
  }

  /** The record of a read in progress, one entry longer. */
  function Logged(x: Rx, w: Inbound, p: Poll): Inbound {
    if x.state == ReadInit || x.state == ReadActive then w.(polls := w.polls + [p]) else w
  }

  /** A read after rx_event, and whether it asked for more. */
  datatype RxStep = RxStep(rx: Rx, inb: Inbound, more: bool)

  function RxEvent(x: Rx, w: Inbound, r: RecvReply): RxStep
    requires RxReady(x, w)
  {
    var poll := PollOf(r, Moved(w, r, x.reqSize));
    var w' := Logged(x, Received(w, r, x.dptr, x.reqSize), poll);
    var done := if x.callback then ReadDocb else DataAvailable;
    match poll
    case Failed =>
      RxStep(x.(timer := 0), w', true)
    case Data(n) =>
      RxStep(x.(returnCnt := (x.returnCnt + n) % 0x1_0000_0000, state := done), w', false)
    case Empty =>
      if x.timer + 1 > READ_TICKS && !x.disTO then
        RxStep(x.(timer := x.timer + 1, returnCnt := 0, state := done), w', false)
      else
        RxStep(x.(timer := x.timer + 1), w', true)
  }

  /** The call-back a finished receive or transmit event asked for. */
  function NotifyRx(s: Slot): Slot {
    if s.rx.state == ReadDocb then
      s.(rx := s.rx.(state := DataAvailable), inb := s.inb.(calls := s.inb.calls + 1))
    else s
  }

  function NotifyTx(s: Slot): Slot {
    if s.tx.state == TxDocb then
      s.(tx := s.tx.(state := TxComplete), out := s.out.(calls := s.out.calls + 1))
    else s
  }

  /** A slot after an API call, the value the call returned and whether it ran _eq_schedule. */
  datatype Outcome = Outcome(slot: Slot, ret: int, schedule: bool)

  /** The record socket_send fills in before the first chunk. */
  function NewTx(s: Slot, data: seq<byte>): Tx {
    Tx(TxStarting, data, 0, |data|, Min(|data|, BUFF_SIZE), 0, s.sock.callback)
  }

  function Send(s: Slot, data: Pointer, size: nat, r: SendReply): Outcome
    requires Ready(s) && size < 0x1_0000_0000
    requires data.To? ==> size <= |data.bytes|
  {
    if size < 1 || data.Null? then Outcome(s, 0, false)
    else
      match s.tx.state
      case TxIdle =>
        var e := TxEvent(NewTx(s, data.bytes[..size]), s.out, r);
        if e.more then
          Outcome(s.(tx := e.tx.(state := TxActive), out := e.out), WOULD_BLOCK, true)
        else
          Reported(NotifyTx(s.(tx := e.tx, out := e.out)))
      case TxComplete => Reported(s)
      case TxActive => Outcome(s, WOULD_BLOCK, false)
      case TxStarting => Outcome(s, WOULD_BLOCK, false)
      case TxDocb => Outcome(s, DEVICE_ERROR, false)
  }

  /** The TX_COMPLETE arm of socket_send. */
  function Reported(s: Slot): Outcome
  {
    Outcome(s.(tx := s.tx.(state := TxIdle)), ToInt32(s.tx.totalSent), false)
  }

  /** The record socket_recv fills in before the first poll. */
  function NewRx(s: Slot, buf: nat, size: nat): Rx {
    Rx(ReadInit, buf, Min(size, BUFF_SIZE), 0, s.sock.disTO, s.sock.callback, 0)
  }

  /** `buf` names the application's buffer; None is the NULL pointer. */
  datatype Buffer = NoBuffer | At(buf: nat)

  predicate Fits(s: Slot, b: Buffer, size: nat) {
    b.At? ==> b.buf in s.inb.mem && size <= |s.inb.mem[b.buf]|
  }

  function Recv(s: Slot, b: Buffer, size: nat, r: RecvReply): Outcome
    requires Ready(s) && size < 0x1_0000_0000 && Fits(s, b, size)
  {
    if size < 1 || b.NoBuffer? then Outcome(s, 0, false)
    else
      match s.rx.state
      case ReadStart =>
        var e := RxEvent(NewRx(s, b.buf, size), s.inb.(polls := []), r);
        if e.more then
          Outcome(s.(rx := e.rx.(state := ReadActive), inb := e.inb), WOULD_BLOCK, true)
        else
          Returned(NotifyRx(s.(rx := e.rx, inb := e.inb)))
      case DataAvailable => Returned(s)
      case ReadActive => Outcome(s, WOULD_BLOCK, false)
      case ReadInit => Outcome(s, WOULD_BLOCK, false)
      case ReadDocb => Outcome(s, DEVICE_ERROR, false)
  }

  /** The DATA_AVAILABLE arm of socket_recv. */
  function Returned(s: Slot): Outcome
  {
    Outcome(s.(rx := s.rx.(state := ReadStart)), ToInt32(s.rx.returnCnt), false)
  }

  /** A slot after the constructor. */
  function FirstSlot(s: Slot): Slot {
    s.(sock := s.sock.(id := -1, disTO := false, connected := false),
       tx := s.tx.(state := TxIdle), rx := s.rx.(state := ReadStart, disTO := false))
  }

  const NOTHING_SENT := Outbound([], [], [], 0)

  /** A connection on which nothing has arrived yet; the application's memory stays. */
  function NothingReceived(w: Inbound): Inbound {
    Inbound([], 0, [], 0, [], w.mem, 0)
  }

  /** socket_open on the slot it picked. */
  function OpenSlot(s: Slot, i: nat): Slot {
    Slot(Sock(i, false, false, false), s.tx.(state := TxIdle), NOTHING_SENT,
         s.rx.(state := ReadStart), NothingReceived(s.inb))
  }

  /** socket_close on a live slot. Nothing resets m_rx_disTO. */
  function CloseSlot(s: Slot): Slot {
    s.(sock := Sock(-1, false, false, false), tx := s.tx.(state := TxIdle), rx := s.rx.(state := ReadStart))
  }

  /** socket_connect: `opens` are the answers to up to three attempts, `residue` what is read
      after the one that succeeds. */
  predicate Connects(s: Slot, opens: seq<bool>, residue: seq<RecvReply>)
    requires Ready(s)
  {
    |opens| == 3 && ((opens[0] || opens[1] || opens[2]) ==> Clears(s.inb, residue))
  }

  /** A success on the third attempt is taken for a failure, because the counter has by then
      reached three. */
  function Connect(s: Slot, opens: seq<bool>, residue: seq<RecvReply>): Outcome
    requires Ready(s) && Connects(s, opens, residue)
  {
    var w := if opens[0] || opens[1] || opens[2] then Cleared(s.inb, residue) else s.inb;
    if opens[0] || opens[1] then
      Outcome(s.(sock := s.sock.(connected := true),
                 inb := w.(calls := if s.sock.callback then w.calls + 1 else w.calls)), OK, false)
    else
      Outcome(s.(inb := w), DEVICE_ERROR, false)
  }

  // ---- one lock-holding pass of g_eq_event ----

  /** What the modem answers during one pass, slot by slot. */
  datatype Answers = Answers(rx: seq<RecvReply>, tx: seq<SendReply>) {
    predicate Full() { |rx| == |tx| == SOCKETS }
  }

  /** The locals of the first loop: the slots, `done` as a flag, and `goSlow`. */
  datatype Pass = Pass(slots: seq<Slot>, more: bool, slow: bool)

  ghost predicate AllReady(slots: seq<Slot>) {
    |slots| == SOCKETS && forall i :: 0 <= i < SOCKETS ==> Ready(slots[i])
  }

  /** The receive half of one iteration of the first loop. */
  function VisitRx(s: Slot, r: RecvReply): RxStep
    requires Ready(s)
  {
    if Polled(s) then RxEvent(s.rx, s.inb, r) else RxStep(s.rx, s.inb, false)
  }

  /** The flag goSlow after the receive half. */
  function SlowAfterRx(s: Slot, r: RecvReply, slow: bool): bool
    requires Ready(s)
  {
    slow || (Polled(s) && RxEvent(s.rx, s.inb, r).rx.timer > SLOW_TICKS)
  }

  /** What the slow flag does to a polled socket. */
  function Delayed(x: RxStep): RxStep {
    RxStep(x.rx.(timer := SLOW_TICKS), Logged(x.rx, x.inb, Slowed), x.more)
  }

  /** The receive half with the flag taken into account. */
  function SlowedRx(s: Slot, r: RecvReply, slow: bool): RxStep
    requires Ready(s)
  {
    if Polled(s) && SlowAfterRx(s, r, slow) then Delayed(VisitRx(s, r)) else VisitRx(s, r)
  }

  /** The transmit half. */
  function VisitTx(s: Slot, r: SendReply): TxStep
    requires s.tx.state == TxActive ==> TxReady(s.tx)
  {
    if s.tx.state == TxActive then TxEvent(s.tx, s.out, r) else TxStep(s.tx, s.out, false)
  }

  /** One iteration of the first loop: the slot, what it adds to `done`, and goSlow afterwards. */
  datatype Visit = Visit(slot: Slot, more: bool, slow: bool)

  function VisitSlot(s: Slot, r: RecvReply, t: SendReply, slow: bool): Visit
    requires Ready(s)
  {
    var x, u := SlowedRx(s, r, slow), VisitTx(s, t);
    Visit(Slot(s.sock, u.tx, u.out, x.rx, x.inb), x.more || u.more,
          SlowAfterRx(s, r, slow) && s.tx.state != TxActive)
  }

  /** The first loop after `n` iterations. */
  ghost function FirstLoop(slots: seq<Slot>, a: Answers, n: nat): (p: Pass)
    requires AllReady(slots) && a.Full() && n <= SOCKETS
    ensures |p.slots| == SOCKETS
    ensures forall k :: n <= k < SOCKETS ==> p.slots[k] == slots[k]
  {
    if n == 0 then Pass(slots, false, false)
    else
      var p := FirstLoop(slots, a, n - 1);
      var v := VisitSlot(p.slots[n - 1], a.rx[n - 1], a.tx[n - 1], p.slow);
      Pass(p.slots[n - 1 := v.slot], p.more || v.more, v.slow)
  }

  /** Iteration `n` touches slot `n` alone. */
  lemma FirstLoopStep(slots: seq<Slot>, a: Answers, n: nat)
    requires AllReady(slots) && a.Full() && n < SOCKETS
    ensures var p, q := FirstLoop(slots, a, n), FirstLoop(slots, a, n + 1);
      var v := VisitSlot(slots[n], a.rx[n], a.tx[n], p.slow);
      && q.slots == p.slots[n := v.slot] && q.more == (p.more || v.more) && q.slow == v.slow
  {
  }

  /** The second loop's body. */
  function Notify(s: Slot): Slot {
    NotifyTx(NotifyRx(s))
  }

  function NotifyAll(slots: seq<Slot>): (r: seq<Slot>)
    ensures |r| == |slots| && forall i :: 0 <= i < |r| ==> r[i] == Notify(slots[i])
  {
    seq(|slots|, i requires 0 <= i < |slots| => Notify(slots[i]))
  }

  /** The whole pass: the slots it leaves and whether it reschedules. */
  datatype Dispatched = Dispatched(slots: seq<Slot>, more: bool)

  ghost function Dispatch(slots: seq<Slot>, a: Answers): (d: Dispatched)
    requires AllReady(slots) && a.Full()
    ensures |d.slots| == SOCKETS
  {
    var p := FirstLoop(slots, a, SOCKETS);
    Dispatched(NotifyAll(p.slots), p.more)
  }

  // ---- the event queue ----

  /** scheduled_events, and the call-backs of g_eq_event waiting in the queue. */
  datatype Queue = Queue(scheduled: nat, pending: nat)

  /** _eq_schedule. */
  function Schedule(q: Queue): Queue {
    if q.scheduled < SOCKETS then Queue(q.scheduled + 1, q.pending + 1) else q
  }

  /** The decrement at the top of g_eq_event. */
  function Count(q: Queue): Queue {
    if q.scheduled > 0 then q.(scheduled := q.scheduled - 1) else q
  }

  /** The counter after one call of g_eq_event, given the outcome of trylock. */
  ghost function AfterEvent(q: Queue, locked: bool, more: bool): Queue {
    if !locked || more then Schedule(Count(q)) else Count(q)
  }

  /** The slot socket_open picks: the lowest free one, or SOCKETS. */
  function FirstFree(slots: seq<Slot>, from: nat): (i: nat)
    requires from <= |slots|
    ensures from <= i <= |slots|
    ensures forall k :: from <= k < i ==> slots[k].sock.id != -1
    ensures i < |slots| ==> slots[i].sock.id == -1
    decreases |slots| - from
  {
    if from == |slots| || slots[from].sock.id == -1 then from else FirstFree(slots, from + 1)
  }
}
