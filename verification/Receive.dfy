/**
 Reception over whole runs: completed reads are the stream, cut where the reads ended, and a
 read times out when its timer says so. This holds of a socket, whatever the others do, as long
 as no background poll moves bytes for it while it is not waiting for any. A socket that never
 listens is never polled that way; Layout.dfy shows what becomes of one that is.
 */
module Receive {
  import opened Common
  import opened Modem
  import opened Engine
  import opened System

  // ---- the specification of one read, from what befell it alone ----

  /** Empty polls since the start, the last failed poll, or the last time the flag set the timer. */
  function Timer(ps: seq<Poll>): nat {
    if ps == [] then 0
    else
      match ps[|ps| - 1]
      case Empty => Timer(ps[..|ps| - 1]) + 1
      case Slowed => SLOW_TICKS
      case _ => 0
  }

  /** Empty polls in a row at the end, whatever the flag did in between. */
  function Row(ps: seq<Poll>): nat {
    if ps == [] then 0
    else
      match ps[|ps| - 1]
      case Empty => Row(ps[..|ps| - 1]) + 1
      case Slowed => Row(ps[..|ps| - 1])
      case _ => 0
  }

  /** A read that this befell has neither got data nor timed out, now or earlier. */
  ghost predicate Patient(ps: seq<Poll>, disTO: bool) {
    ps == [] ||
    var front, last := ps[..|ps| - 1], ps[|ps| - 1];
    Patient(front, disTO) && !last.Data? && (last.Empty? && !disTO ==> Timer(front) < READ_TICKS)
  }

  /** This ends a read with result `n`: the last poll brought n bytes, or it was empty and
      took the timer of a read that can time out past 600; nothing before it did. */
  ghost predicate Ends(ps: seq<Poll>, n: int, disTO: bool) {
    && ps != [] && Patient(ps[..|ps| - 1], disTO)
    && if n > 0 then ps[|ps| - 1] == Data(n)
       else n == 0 && !disTO && ps[|ps| - 1].Empty? && Timer(ps[..|ps| - 1]) >= READ_TICKS
  }

  /** A reported read keeps to its buffer and to the size asked for. */
  ghost predicate GoodRead(r: Read) {
    && Ends(r.polls, r.ret, r.disTO)
    && |r.bytes| == r.ret <= Min(r.size, BUFF_SIZE)
  }

  function Bytes(rs: seq<Read>): seq<byte> {
    if rs == [] then [] else Bytes(rs[..|rs| - 1]) + rs[|rs| - 1].bytes
  }

  /** What has ended a read has not ended it before. */
  lemma {:induction false} EndsOnce(ps: seq<Poll>, n: int, disTO: bool, k: nat, m: int)
    requires Ends(ps, n, disTO) && k < |ps|
    ensures !Ends(ps[..k], m, disTO)
  {
    var front := ps[..|ps| - 1];
    if k == |ps| - 1 {
    } else {
      StaysPatient(front, disTO, k + 1);
      assert front[..k + 1][..k] == ps[..k];
      StaysPatient(front, disTO, k);
      assert front[..k] == ps[..k];
    }
  }

  lemma {:induction false} StaysPatient(ps: seq<Poll>, disTO: bool, k: nat)
    requires Patient(ps, disTO) && k <= |ps|
    ensures Patient(ps[..k], disTO)
  {
    if k == |ps| {
      assert ps[..k] == ps;
    } else {
      StaysPatient(ps[..|ps| - 1], disTO, k);
      assert ps[..|ps| - 1][..k] == ps[..k];
    }
  }

  /** While a read that can time out waits, its timer is the row of empty polls, unless the flag
      has just set it. */
  lemma {:induction false} TimerIsTheRow(ps: seq<Poll>)
    requires Patient(ps, false)
    ensures Row(ps) <= READ_TICKS
    ensures ps == [] || !ps[|ps| - 1].Slowed? ==> Timer(ps) == Row(ps)
  {
    if ps != [] {
      TimerIsTheRow(ps[..|ps| - 1]);
    }
  }

  /** The flag was up right before the last poll, and that was not the 600th empty one. */
  predicate Hurried(ps: seq<Poll>) {
    |ps| >= 2 && ps[|ps| - 2].Slowed? && Row(ps[..|ps| - 1]) < READ_TICKS
  }

  /** A read without data ends on its 601st empty poll in a row, and earlier exactly when the
      slow flag hurried it. */
  lemma TimesOutExactly(ps: seq<Poll>)
    requires Ends(ps, 0, false)
    ensures Row(ps) <= READ_TICKS + 1
    ensures Row(ps) == READ_TICKS + 1 <==> !Hurried(ps)
  {
    TimerIsTheRow(ps[..|ps| - 1]);
  }

  lemma OneMore(ps: seq<Poll>, p: Poll)
    ensures (ps + [p])[..|ps|] == ps && (ps + [p])[|ps|] == p
    ensures Timer(ps + [p]) == (match p case Empty => Timer(ps) + 1 case Slowed => SLOW_TICKS case _ => 0)
  {
    assert (ps + [p])[..|ps|] == ps;
  }

  // ---- the invariant of one live socket ----

  /** The bytes handed over are the stream so far, but for what was lost. */
  ghost predicate Accounted(w: Inbound) {
    && w.taken == |w.delivered| + w.lost && w.taken <= |w.stream|
    && (w.lost == 0 ==> w.delivered == w.stream[..w.taken])
  }

  /** A read in progress, started by a call with the arguments in `h`. */
  ghost predicate Reading(x: Rx, w: Inbound, h: Hist) {
    && (x.state == ReadInit || x.state == ReadActive)
    && RxReady(x, w)
    && x.dptr == h.asked.buf && 1 <= h.asked.size && x.reqSize == Min(h.asked.size, BUFF_SIZE)
    && x.returnCnt == 0
    && Patient(w.polls, x.disTO) && x.timer == Timer(w.polls)
  }

  /** A read that has ended and waits to be reported: its bytes are in its buffer. */
  ghost predicate Filled(x: Rx, w: Inbound, h: Hist) {
    && x.dptr == h.asked.buf
    && x.returnCnt <= Min(h.asked.size, BUFF_SIZE)
    && h.asked.buf in w.mem && x.returnCnt <= |w.mem[h.asked.buf]| && x.reqSize <= BUFF_SIZE
    && Ends(w.polls, x.returnCnt, x.disTO)
  }

  /** Bytes of a read that has ended but was not reported. */
  function Waiting(s: Slot): seq<byte> {
    if s.rx.state == DataAvailable then Front(s.inb, s.rx.dptr, s.rx.returnCnt) else []
  }

  ghost predicate RxInv(s: Slot, h: Hist) {
    && Accounted(s.inb)
    && (forall k :: 0 <= k < |h.received| ==> GoodRead(h.received[k]))
    && s.inb.delivered == Bytes(h.received) + Waiting(s)
    && match s.rx.state
       case ReadStart =>
         (s.rx.disTO && h.asked.size >= 1 ==> 1 <= s.rx.returnCnt <= BUFF_SIZE && s.rx.reqSize <= BUFF_SIZE)
       case ReadActive => Reading(s.rx, s.inb, h)
       case DataAvailable => Filled(s.rx, s.inb, h)
       case _ => false
  }

  /** What one AT+QIRD does: bytes of a successful poll are the next of the stream, and lie at
      the start of the buffer. */
  lemma MovedOnce(w: Inbound, r: RecvReply, p: nat, cnt: nat)
    requires Accounted(w) && p in w.mem && cnt <= |w.mem[p]|
    ensures var w', n := Received(w, r, p, cnt), Moved(w, r, cnt);
      && Accounted(w') && w'.polls == w.polls
      && p in w'.mem && |w'.mem[p]| == |w.mem[p]|
      && w'.delivered == w.delivered + (if PollOf(r, n).Data? then w'.mem[p][..n] else [])
      && (PollOf(r, n).Data? <==> n > 0 && r.Header? && r.closed)
      && (PollOf(r, n).Data? ==> PollOf(r, n) == Data(n))
  {
    var n := Moved(w, r, cnt);
    var bytes := w.stream[w.taken..w.taken + n];
    assert w.stream[..w.taken] + bytes == w.stream[..w.taken + n];
    assert (bytes + w.mem[p][n..])[..n] == bytes;
  }

  /** One call of rx_event on a read in progress leaves it waiting or ends it. */
  lemma PolledOnce(x: Rx, w: Inbound, h: Hist, r: RecvReply)
    requires Reading(x, w, h) && Accounted(w)
    ensures var e := RxEvent(x, w, r);
      && Accounted(e.inb) && e.rx.disTO == x.disTO
      && (e.more ==> Reading(e.rx, e.inb, h) && e.rx.state == x.state && e.inb.delivered == w.delivered)
      && (!e.more ==> Filled(e.rx, e.inb, h)
                      && e.rx.state == (if x.callback then ReadDocb else DataAvailable)
                      && e.inb.delivered == w.delivered + Front(e.inb, h.asked.buf, e.rx.returnCnt))
  {
    MovedOnce(w, r, x.dptr, x.reqSize);
    OneMore(w.polls, PollOf(r, Moved(w, r, x.reqSize)));
    hide Timer, Received, Moved;
  }

  /** The flag only sets the timer. */
  lemma SlowedOnce(x: Rx, w: Inbound, h: Hist)
    requires Reading(x, w, h)
    ensures Reading(x.(timer := SLOW_TICKS), Logged(x, w, Slowed), h)
  {
    OneMore(w.polls, Slowed);
  }

  // ---- background polls nobody waits for ----

  /** A live socket is polled, because its last read was a listener's, while it waits for nothing;
      and that poll brings bytes, or spoils the ones not fetched yet. */
  predicate Disturbed(s: Slot, r: RecvReply)
    requires Ready(s)
  {
    && Live(s) && s.rx.disTO && s.rx.state != ReadActive
    && var n := Moved(s.inb, r, s.rx.reqSize);
       n > 0 && (PollOf(r, n).Data? || s.rx.state == DataAvailable)
  }

  ghost predicate Disturbs(s: Sys, e: Event, i: nat)
    requires Shaped(s) && Enabled(s, e) && i < SOCKETS
  {
    e.Dispatch? && Disturbed(s.slots[i], e.a.rx[i])
  }

  /** Socket `i` is never disturbed in this run. */
  ghost predicate Undisturbed(s: Sys, es: seq<Event>, i: nat)
    requires Shaped(s) && Possible(s, es) && i < SOCKETS
    decreases |es|
  {
    es == [] || (!Disturbs(s, es[0], i) && Undisturbed(Next(s, es[0]), es[1..], i))
  }

  /** Any other such poll leaves all of it as it was, but for bytes lost to a failing one. */
  lemma IdlePoll(s: Slot, h: Hist, r: RecvReply)
    requires Ready(s) && Live(s) && RxInv(s, h) && Polled(s) && s.rx.state != ReadActive && !Disturbed(s, r)
    ensures var e := RxEvent(s.rx, s.inb, r);
      && e.rx == s.rx.(timer := e.rx.timer) && RxInv(s.(rx := e.rx, inb := e.inb), h)
      && RxInv(s.(rx := e.rx.(timer := SLOW_TICKS), inb := e.inb), h)
  {
    MovedOnce(s.inb, r, s.rx.dptr, s.rx.reqSize);
    hide Ends, GoodRead, Bytes, Patient, Timer, Reading;
    if s.rx.state == DataAvailable {
      assert s.inb.mem[s.rx.dptr := s.inb.mem[s.rx.dptr]] == s.inb.mem;
      assert [] + s.inb.mem[s.rx.dptr][0..] == s.inb.mem[s.rx.dptr];
    }
  }

  // ---- it is kept by every event of an undisturbed run ----

  lemma BytesMore(rs: seq<Read>, r: Read)
    ensures Bytes(rs + [r]) == Bytes(rs) + r.bytes
  {
    assert (rs + [r])[..|rs|] == rs;
  }

  /** Reporting an ended read moves its bytes from the buffer to the record. */
  lemma ReportKeepsRx(s: Slot, h: Hist, h': Hist)
    requires RxInv(s, h) && s.rx.state == DataAvailable
    requires var n := s.rx.returnCnt;
      h' == h.(received := h.received +
        [Read(h.asked.buf, h.asked.size, n, Front(s.inb, h.asked.buf, n), s.inb.polls, s.rx.disTO)])
    ensures RxInv(s.(rx := s.rx.(state := ReadStart)), h')
  {
    BytesMore(h.received, h'.received[|h.received|]);
  }

  /** A read that has just ended, call-back made. */
  lemma EndKeepsRx(s: Slot, s1: Slot, h: Hist)
    requires s.inb.delivered == Bytes(h.received)
    requires forall k :: 0 <= k < |h.received| ==> GoodRead(h.received[k])
    requires s1.rx.state == DataAvailable && Filled(s1.rx, s1.inb, h) && Accounted(s1.inb)
    requires s1.inb.delivered == s.inb.delivered + Front(s1.inb, h.asked.buf, s1.rx.returnCnt)
    ensures RxInv(s1, h)
  {
  }

  /** The first poll of a read. */
  lemma FirstPollKeepsRx(s: Slot, h: Hist, x: Rx, w: Inbound, r: RecvReply)
    requires RxInv(s, h) && Waiting(s) == [] && w == s.inb.(polls := []) && Reading(x, w, h)
    ensures var step := RxEvent(x, w, r);
      var ended := NotifyRx(s.(rx := step.rx, inb := step.inb));
      && (step.more ==> RxInv(s.(rx := step.rx.(state := ReadActive), inb := step.inb), h))
      && (!step.more ==> RxInv(ended, h) && ended.rx == step.rx.(state := DataAvailable))
  {
    PolledOnce(x, w, h, r);
    hide RxEvent, Accounted, Ends, GoodRead, Bytes, Timer, Patient;
    var step := RxEvent(x, w, r);
    if !step.more {
      EndKeepsRx(s, NotifyRx(s.(rx := step.rx, inb := step.inb)), h);
    }
  }

  lemma StartKeepsRx(s: Slot, h: Hist, e: Event)
    requires e.Recv? && e.size >= 1 && e.b.At? && s.rx.state == ReadStart
    requires Ready(s) && EnabledAt(s, e) && RxInv(s, h)
    ensures RxInv(Act(s, e), Note(s, h, e))
  {
    hide RxEvent, Accounted, Ends, GoodRead, Bytes;
    var x, w := NewRx(s, e.b.buf, e.size), s.inb.(polls := []);
    var h1 := h.(asked := Asked(e.b.buf, e.size, h.attached, h.listening));
    assert RxInv(s.(rx := s.rx.(disTO := false)), h1);
    FirstPollKeepsRx(s.(rx := s.rx.(disTO := false)), h1, x, w, e.r);
    hide RxInv, Patient, Timer, Reading;
    var step := RxEvent(x, w, e.r);
    var s1 := s.(rx := step.rx, inb := step.inb);
    if !step.more {
      ReportKeepsRx(NotifyRx(s1), h1, Note(s, h, e));
    }
  }

  lemma RecvKeepsRx(s: Slot, h: Hist, e: Event)
    requires e.Recv? && Ready(s) && EnabledAt(s, e) && RxInv(s, h)
    ensures RxInv(Act(s, e), Note(s, h, e))
  {
    hide Bytes, Timer, Patient, RxEvent;
    if e.size >= 1 && e.b.At? {
      if s.rx.state == ReadStart {
        StartKeepsRx(s, h, e);
      } else if s.rx.state == DataAvailable {
        ReportKeepsRx(s, h, Note(s, h, e));
      }
    }
  }

  lemma ActKeepsRx(s: Slot, h: Hist, e: Event)
    requires Local(e) && Ready(s) && EnabledAt(s, e) && Live(s) && RxInv(s, h) && Live(Act(s, e))
    ensures RxInv(Act(s, e), Note(s, h, e))
  {
    if e.Recv? {
      RecvKeepsRx(s, h, e);
    } else {
      OtherKeepsRx(s, h, e);
    }
  }

  lemma OtherKeepsRx(s: Slot, h: Hist, e: Event)
    requires Local(e) && !e.Recv? && Ready(s) && EnabledAt(s, e) && Live(s) && RxInv(s, h) && Live(Act(s, e))
    ensures RxInv(Act(s, e), Note(s, h, e))
  {
    CallHalves(s, e);
    NoteHalves(s, h, e);
    hide Ends, GoodRead, Bytes, Timer, Patient, Note, Engine.Send, Engine.Connect;
    if e.Connect? {
      ConnectEmptiesTheModem(s, e);
    } else if e.Arrive? {
      assert (s.inb.stream + e.bytes)[..s.inb.taken] == s.inb.stream[..s.inb.taken];
    }
  }

  /** The receive half of a pass, for a read in progress. */
  lemma ActivePoll(s: Slot, r: RecvReply, slow: bool)
    requires Ready(s) && s.rx.state == ReadActive
    ensures var step, s' := RxEvent(s.rx, s.inb, r), RxHalf(s, r, slow);
      && (step.more && step.rx.state == ReadActive ==>
            s' == s.(rx := step.rx, inb := step.inb) ||
            s' == s.(rx := step.rx.(timer := SLOW_TICKS), inb := Logged(step.rx, step.inb, Slowed)))
      && (!step.more && (step.rx.state == ReadDocb || step.rx.state == DataAvailable) ==>
            && s'.sock == s.sock
            && s'.rx == step.rx.(state := DataAvailable, timer := s'.rx.timer)
            && s'.inb == step.inb.(calls := s'.inb.calls))
  {
    hide RxEvent, RxReady, TxReady;
  }

  lemma ActivePollKeepsRx(s: Slot, h: Hist, r: RecvReply, slow: bool)
    requires Ready(s) && RxInv(s, h) && s.rx.state == ReadActive
    ensures RxInv(RxHalf(s, r, slow), h)
  {
    hide RxEvent, Ends, GoodRead, Bytes, Timer, Patient;
    PolledOnce(s.rx, s.inb, h, r);
    ActivePoll(s, r, slow);
    var step := RxEvent(s.rx, s.inb, r);
    if step.more {
      SlowedOnce(step.rx, step.inb, h);
      hide RxHalf, Filled;
      WaitKeepsRx(s, RxHalf(s, r, slow), h);
    } else {
      hide RxHalf, Reading;
      EndKeepsRx(s, RxHalf(s, r, slow), h);
    }
  }

  /** A read still in progress. */
  lemma WaitKeepsRx(s: Slot, s1: Slot, h: Hist)
    requires s.rx.state == s1.rx.state == ReadActive && RxInv(s, h)
    requires Reading(s1.rx, s1.inb, h) && Accounted(s1.inb) && s1.inb.delivered == s.inb.delivered
    ensures RxInv(s1, h)
  {
  }

  lemma RxHalfKeepsRx(s: Slot, h: Hist, r: RecvReply, slow: bool)
    requires Ready(s) && Live(s) && RxInv(s, h) && !Disturbed(s, r)
    ensures RxInv(RxHalf(s, r, slow), h)
  {
    if s.rx.state == ReadActive {
      ActivePollKeepsRx(s, h, r, slow);
    } else if Polled(s) {
      IdlePoll(s, h, r);
      hide RxEvent, Disturbed, RxInv;
      assert s.rx.state == ReadStart || s.rx.state == DataAvailable;
    }
  }

  lemma ServeKeepsRx(s: Slot, h: Hist, r: RecvReply, t: SendReply, slow: bool)
    requires Ready(s) && Live(s) && RxInv(s, h) && !Disturbed(s, r)
    ensures RxInv(Serve(s, r, t, slow), h)
  {
    ServeHalves(s, r, t, slow);
    RxHalfKeepsRx(s, h, r, slow);
    hide Serve, RxHalf, TxHalf, Ends, GoodRead, Bytes, Timer, Patient;
  }

  /** Nothing is asked of a slot nobody holds. */
  ghost predicate LiveRx(s: Slot, h: Hist) {
    Live(s) ==> RxInv(s, h)
  }

  lemma NextKeepsRx(s: Sys, e: Event, i: nat)
    requires Shaped(s) && Enabled(s, e) && i < SOCKETS
    requires LiveRx(s.slots[i], s.hists[i]) && !Disturbs(s, e, i)
    ensures LiveRx(Next(s, e).slots[i], Next(s, e).hists[i])
  {
    hide Serve, Act, Note, Ends, GoodRead, Timer, Patient, Disturbed;
    if e.Dispatch? {
      DispatchAt(s.slots, e.a, i);
      var slow := SlowAt(s.slots, e.a, i);
      ServeHalves(s.slots[i], e.a.rx[i], e.a.tx[i], slow);
      if Live(s.slots[i]) {
        ServeKeepsRx(s.slots[i], s.hists[i], e.a.rx[i], e.a.tx[i], slow);
      }
    } else if Local(e) && e.i == i {
      LocalKeepsRx(s.slots[i], s.hists[i], e);
    }
  }

  lemma LocalKeepsRx(s: Slot, h: Hist, e: Event)
    requires Local(e) && Ready(s) && EnabledAt(s, e) && LiveRx(s, h)
    ensures LiveRx(Act(s, e), Note(s, h, e))
  {
    hide RxInv;
    CallHalves(s, e);
    if Live(Act(s, e)) {
      assert Live(s);
      ActKeepsRx(s, h, e);
    }
  }

  lemma {:induction false} RunKeepsRx(s: Sys, es: seq<Event>, i: nat)
    requires Shaped(s) && Possible(s, es) && i < SOCKETS && Undisturbed(s, es, i)
    requires LiveRx(s.slots[i], s.hists[i])
    ensures LiveRx(After(s, es).slots[i], After(s, es).hists[i])
    decreases |es|
  {
    hide LiveRx, Disturbs;
    if es != [] {
      NextKeepsRx(s, es[0], i);
      RunKeepsRx(Next(s, es[0]), es[1..], i);
    }
  }

  // ---- a socket that never listens ----

  /** No socket_listen on slot `i` in the run, by whoever held it. */
  ghost predicate NeverListens(es: seq<Event>, i: nat) {
    forall k :: 0 <= k < |es| ==> !(es[k].Listen? && es[k].i == i)
  }

  /** A slot nobody holds: nothing is going on in it. */
  predicate Pristine(s: Slot) {
    && s.sock.id == -1 && !s.sock.connected && !s.sock.disTO
    && s.tx.state == TxIdle && s.rx.state == ReadStart && !s.rx.disTO
  }

  predicate Ordinary(s: Slot) {
    !s.sock.disTO && !s.rx.disTO && (Live(s) || Pristine(s))
  }

  lemma ActKeepsOrdinary(s: Slot, e: Event)
    requires Local(e) && !e.Listen? && Ready(s) && EnabledAt(s, e) && Ordinary(s)
    ensures Ordinary(Act(s, e))
  {
    CallHalves(s, e);
  }

  lemma ServeKeepsOrdinary(s: Slot, r: RecvReply, t: SendReply, slow: bool)
    requires Ready(s) && Ordinary(s)
    ensures Ordinary(Serve(s, r, t, slow))
  {
    ServeHalves(s, r, t, slow);
  }

  lemma NextKeepsOrdinary(s: Sys, e: Event, i: nat)
    requires Shaped(s) && Enabled(s, e) && i < SOCKETS && Ordinary(s.slots[i])
    requires !(e.Listen? && e.i == i)
    ensures Ordinary(Next(s, e).slots[i]) && !Disturbs(s, e, i)
  {
    hide Serve, Act, Note;
    if e.Dispatch? {
      DispatchAt(s.slots, e.a, i);
      ServeKeepsOrdinary(s.slots[i], e.a.rx[i], e.a.tx[i], SlowAt(s.slots, e.a, i));
    } else if Local(e) && e.i == i {
      ActKeepsOrdinary(s.slots[i], e);
    }
  }

  lemma {:induction false} RunKeepsOrdinary(s: Sys, es: seq<Event>, i: nat)
    requires Shaped(s) && Possible(s, es) && NeverListens(es, i) && i < SOCKETS && Ordinary(s.slots[i])
    ensures Ordinary(After(s, es).slots[i]) && Undisturbed(s, es, i)
    decreases |es|
  {
    if es != [] {
      NextKeepsOrdinary(s, es[0], i);
      RunKeepsOrdinary(Next(s, es[0]), es[1..], i);
    }
  }

  // ---- the results ----

  /**
   The reads of a live socket are its stream. At every point of every run in which its slot
   never listened, whatever the other sockets do: each reported read ended exactly when it
   should have, with the bytes it reports at the start of the buffer given to the call that
   started it, within that buffer and the size asked for; and the reads, in order, with the one
   waiting to be reported, are all that was delivered. That is the consumed prefix of the
   modem's stream exactly when nothing was lost.
   */
  lemma ReadsAreTheStream(s0: Sys, es: seq<Event>, i: nat)
    requires Initial(s0) && Possible(s0, es) && i < SOCKETS && NeverListens(es, i) && Live(After(s0, es).slots[i])
    ensures var s := After(s0, es).slots[i]; var h := After(s0, es).hists[i];
      && (forall k :: 0 <= k < |h.received| ==> GoodRead(h.received[k]))
      && Bytes(h.received) + Waiting(s) == s.inb.delivered
      && (s.inb.delivered == s.inb.stream[..s.inb.taken] <==> s.inb.lost == 0)
      && (s.rx.state == ReadStart || s.rx.state == ReadActive || s.rx.state == DataAvailable)
      && (s.rx.state != ReadStart ==> s.rx.dptr == h.asked.buf)
      && (s.rx.state == DataAvailable ==> |Waiting(s)| == s.rx.returnCnt && Ends(s.inb.polls, s.rx.returnCnt, false))
  {
    RunKeepsOrdinary(s0, es, i);
    RunKeepsRx(s0, es, i);
  }

  /** A slot that never listened and that nobody holds is always idle, at the start of a read and
      unconnected. */
  lemma FreeSlotsArePristine(s0: Sys, es: seq<Event>, i: nat)
    requires Initial(s0) && Possible(s0, es) && i < SOCKETS && NeverListens(es, i)
    ensures !Live(After(s0, es).slots[i]) <==> Pristine(After(s0, es).slots[i])
  {
    RunKeepsOrdinary(s0, es, i);
  }

  /** Its reads could time out, all of them. */
  predicate AllTimed(s: Slot, h: Hist) {
    Live(s) ==> forall k :: 0 <= k < |h.received| ==> !h.received[k].disTO
  }

  lemma NextKeepsTimed(s: Sys, e: Event, i: nat)
    requires Shaped(s) && Enabled(s, e) && i < SOCKETS && Ordinary(s.slots[i]) && AllTimed(s.slots[i], s.hists[i])
    ensures AllTimed(Next(s, e).slots[i], Next(s, e).hists[i])
  {
    NextIs(s, e);
    hide Next, Serve, Act, Note;
    if e.Dispatch? {
      DispatchAt(s.slots, e.a, i);
      ServeHalves(s.slots[i], e.a.rx[i], e.a.tx[i], SlowAt(s.slots, e.a, i));
    } else if Local(e) && e.i == i {
      LocalKeepsTimed(s.slots[i], s.hists[i], e);
    }
  }

  lemma LocalKeepsTimed(s: Slot, h: Hist, e: Event)
    requires Local(e) && Ready(s) && EnabledAt(s, e) && Ordinary(s) && AllTimed(s, h)
    ensures AllTimed(Act(s, e), Note(s, h, e))
  {
    NoteHalves(s, h, e);
    CallHalves(s, e);
    hide Front, Received, PollOf;
  }

  lemma {:induction false} RunKeepsTimed(s: Sys, es: seq<Event>, i: nat)
    requires Shaped(s) && Possible(s, es) && i < SOCKETS && NeverListens(es, i) && Ordinary(s.slots[i])
    requires AllTimed(s.slots[i], s.hists[i])
    ensures AllTimed(After(s, es).slots[i], After(s, es).hists[i])
    decreases |es|
  {
    hide Ordinary, AllTimed;
    if es != [] {
      NextKeepsOrdinary(s, es[0], i);
      NextKeepsTimed(s, es[0], i);
      RunKeepsTimed(Next(s, es[0]), es[1..], i);
    }
  }

  /** In every run, with any listeners on other slots: a read that reports 0 has ended on its
      601st empty poll in a row, or earlier, and earlier exactly when a pass met the slow flag
      up at its slot right before the last poll. */
  lemma ReadsTimeOutExactly(s0: Sys, es: seq<Event>, i: nat, k: nat)
    requires Initial(s0) && Possible(s0, es) && i < SOCKETS && NeverListens(es, i) && Live(After(s0, es).slots[i])
    requires k < |After(s0, es).hists[i].received| && After(s0, es).hists[i].received[k].ret == 0
    ensures var ps := After(s0, es).hists[i].received[k].polls;
      Row(ps) <= READ_TICKS + 1 && (Row(ps) == READ_TICKS + 1 <==> !Hurried(ps))
  {
    ReadsAreTheStream(s0, es, i);
    RunKeepsTimed(s0, es, i);
    TimesOutExactly(After(s0, es).hists[i].received[k].polls);
  }
}
