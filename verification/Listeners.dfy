/**
 What listening sockets do, as runs: a long-silent listening socket makes another socket's read
 time out on its third empty poll instead of its 601st; data that reaches a listening socket
 twice is counted twice and stored once; and a slot that once listened reads unasked into the
 old buffer when somebody else holds it.
 */
module Listeners {
  import opened Common
  import opened Modem
  import opened Engine
  import opened System
  import opened Receive

  const EMPTY_POLL := Header(0, true)
  const SILENT := Answers([EMPTY_POLL, EMPTY_POLL, EMPTY_POLL, EMPTY_POLL, EMPTY_POLL],
                          [TAKEN, TAKEN, TAKEN, TAKEN, TAKEN])
  const TAKEN := SendReply(true, true, 1, true)

  predicate Untouched(s: Slot) {
    s.sock.id == -1 && s.tx.state == TxIdle && s.rx.state == ReadStart && !s.rx.disTO
  }

  /** A read whose last poll left the timer at `t`. */
  predicate Polling(s: Slot, t: int) {
    Ready(s) && s.tx.state == TxIdle && s.rx.state == ReadActive && s.rx.timer == t
  }

  /** Slot 0 listens and has been silent for a while; the others are free. */
  ghost predicate Listening(s: Sys, t: int) {
    && Shaped(s) && Polling(s.slots[0], t) && s.slots[0].rx.disTO
    && Live(s.slots[0]) && s.slots[0].sock.id == 0
    && forall k :: 1 <= k < SOCKETS ==> Untouched(s.slots[k])
  }

  lemma SilentShare(s: Slot, slow: bool)
    requires Ready(s)
    ensures var s' := Serve(s, EMPTY_POLL, TAKEN, slow);
      && (Untouched(s) ==> s' == s)
      && (s.rx.state == ReadActive && s.tx.state == TxIdle ==>
            var late := s.rx.timer + 1 > READ_TICKS && !s.rx.disTO;
            var slow' := slow || s.rx.timer + 1 > SLOW_TICKS;
            && s'.sock == s.sock && s'.tx == s.tx && s'.rx.disTO == s.rx.disTO
            && s'.inb.polls == s.inb.polls + (if slow' && !late then [Empty, Slowed] else [Empty])
            && s'.rx.timer == (if slow' then SLOW_TICKS else s.rx.timer + 1)
            && s'.rx.state == (if late then DataAvailable else ReadActive)
            && (late ==> s'.rx.returnCnt == 0))
  {
    ServeHalves(s, EMPTY_POLL, TAKEN, slow);
  }

  lemma {:induction false} RunAppend(s: Sys, a: seq<Event>, b: seq<Event>)
    requires Shaped(s) && Possible(s, a) && Possible(After(s, a), b)
    ensures Possible(s, a + b) && After(s, a + b) == After(After(s, a), b)
    decreases |a|
  {
    hide Next, Enabled;
    if a == [] {
      assert a + b == b;
    } else {
      assert (a + b)[1..] == a[1..] + b;
      RunAppend(Next(s, a[0]), a[1..], b);
    }
  }

  lemma OneEvent(s: Sys, e: Event)
    requires Shaped(s) && Enabled(s, e)
    ensures Possible(s, [e]) && After(s, [e]) == Next(s, e)
  {
    assert [e][1..] == [];
    assert Possible(Next(s, e), []);
  }

  lemma Extend(s: Sys, es: seq<Event>, e: Event)
    requires Shaped(s) && Possible(s, es) && Enabled(After(s, es), e)
    ensures Possible(s, es + [e]) && After(s, es + [e]) == Next(After(s, es), e)
  {
    OneEvent(After(s, es), e);
    RunAppend(s, es, [e]);
  }

  /** A silent pass serves every slot. */
  lemma SilentPass(s: Sys, i: nat)
    requires Shaped(s) && i < SOCKETS
    ensures SILENT.Full()
    ensures Next(s, Dispatch(SILENT)).slots[i] == Serve(s.slots[i], EMPTY_POLL, TAKEN, SlowAt(s.slots, SILENT, i))
    ensures i == 0 ==> !SlowAt(s.slots, SILENT, i)
  {
    DispatchAt(s.slots, SILENT, i);
  }

  lemma WaitOnce(s: Sys, t: int)
    requires Listening(s, t) && 0 <= t <= SLOW_TICKS
    ensures Listening(Next(s, Dispatch(SILENT)), Min(t + 1, SLOW_TICKS))
  {
    hide Next, SlowAt, Serve;
    var s' := Next(s, Dispatch(SILENT));
    SilentPass(s, 0);
    SilentShare(s.slots[0], false);
    forall i | 1 <= i < SOCKETS ensures s'.slots[i] == s.slots[i] {
      SilentPass(s, i);
      SilentShare(s.slots[i], SlowAt(s.slots, SILENT, i));
    }
  }

  /** However long the listener waits, and then some. */
  lemma {:induction false} WaitLong(s0: Sys, es: seq<Event>, t: nat, n: nat) returns (es': seq<Event>)
    requires Shaped(s0) && Possible(s0, es) && Listening(After(s0, es), t) && t + n <= SLOW_TICKS
    ensures Possible(s0, es') && Listening(After(s0, es'), t + n)
    decreases n
  {
    hide Listening, Next;
    es' := es;
    if n > 0 {
      WaitOnce(After(s0, es), t);
      Extend(s0, es, Dispatch(SILENT));
      es' := WaitLong(s0, es + [Dispatch(SILENT)], t + 1, n - 1);
    }
  }

  /** Slot 0 reads into buffer 0, of `z` bytes, as a listener; `brought` has arrived and been
      polled, byte by byte. */
  ghost predicate Heard(s: Sys, z: nat, brought: seq<byte>)
    requires z >= 1
  {
    var n := |brought|;
    && Shaped(s) && Live(s.slots[0]) && s.slots[0].tx.state == TxIdle
    && var x, w, h := s.slots[0].rx, s.slots[0].inb, s.hists[0];
    && x == Rx(if n == 0 then ReadActive else DataAvailable, 0, Min(z, BUFF_SIZE), x.timer, true, false, n)
    && w.stream == w.delivered == brought && w.taken == n
    && 0 in w.mem && w.mem[0] == (if n == 0 then Zeros(z) else [brought[n - 1]] + Zeros(z)[1..])
    && w.polls == (if n == 0 then [Empty] else [Empty, Data(1)])
    && h == NO_HIST.(listening := true, asked := Asked(0, z, false, true))
  }

  function Zeros(z: nat): (bytes: seq<byte>)
    requires z >= 1
    ensures |bytes| == z && bytes[0] == 0
  {
    seq(z, _ => 0)
  }

  /** A socket is opened and made to listen. */
  ghost predicate Prepared(s: Sys, z: nat)
    requires z >= 1
  {
    && Shaped(s) && s.slots[0].sock == Sock(0, true, false, false) && s.hists[0] == NO_HIST.(listening := true)
    && s.slots[0].tx.state == TxIdle && s.slots[0].rx.state == ReadStart
    && s.slots[0].inb == NothingReceived(s.slots[0].inb) && 0 in s.slots[0].inb.mem && s.slots[0].inb.mem[0] == Zeros(z)
    && forall k :: 1 <= k < SOCKETS ==> Untouched(s.slots[k])
  }

  lemma Prepare(s0: Sys, z: nat) returns (es: seq<Event>)
    requires Initial(s0) && z >= 1
    ensures Possible(s0, es) && Prepared(After(s0, es), z)
  {
    hide Next, Possible, After;
    var e1, e2, e3 := Provide(0, 0, Zeros(z)), Open, Listen(0);
    NextIs(s0, e1);
    OneEvent(s0, e1);
    var s1 := Next(s0, e1);
    assert FirstFree(s1.slots, 0) == 0;
    NextIs(s1, e2);
    Extend(s0, [e1], e2);
    var s2 := Next(s1, e2);
    NextIs(s2, e3);
    Extend(s0, [e1] + [e2], e3);
    es := [e1] + [e2] + [e3];
  }

  /** ... and to read; nothing comes. */
  lemma StartListening(s0: Sys, z: nat) returns (es: seq<Event>)
    requires Initial(s0) && 1 <= z < 0x1_0000_0000
    ensures Possible(s0, es) && Listening(After(s0, es), 1) && Heard(After(s0, es), z, [])
  {
    var before := Prepare(s0, z);
    hide Next, Engine.Recv, Possible, After, Initial;
    var s, e := After(s0, before), Recv(0, At(0), z, EMPTY_POLL);
    NextIs(s, e);
    FirstPoll(s.slots[0], 0, z);
    Extend(s0, before, e);
    es := before + [e];
  }

  /** socket_recv on an idle slot, nothing there. */
  lemma FirstPoll(s: Slot, buf: nat, z: nat)
    requires Ready(s) && s.rx.state == ReadStart && buf in s.inb.mem && |s.inb.mem[buf]| >= z
    requires s.tx.state == TxIdle && 1 <= z < 0x1_0000_0000
    ensures var s' := Engine.Recv(s, At(buf), z, EMPTY_POLL).slot;
      && s' == s.(rx := s'.rx, inb := s'.inb) && Polling(s', 1)
      && s'.rx == Rx(ReadActive, buf, Min(z, BUFF_SIZE), 1, s.sock.disTO, s.sock.callback, 0)
      && s'.inb == s.inb.(polls := [Empty])
  {
    assert Ready(s.(rx := NewRx(s, buf, z), inb := s.inb.(polls := [])));
    assert [] + s.inb.mem[buf][0..] == s.inb.mem[buf];
    assert s.inb.mem[buf := s.inb.mem[buf]] == s.inb.mem;
    assert [] + [Empty] == [Empty];
  }

  /** The listener has reached the limit; slot 1 reads, its timer at `t`. */
  ghost predicate Crowded(s: Sys, t: int, ps: seq<Poll>) {
    && Shaped(s) && Polling(s.slots[0], SLOW_TICKS) && s.slots[0].rx.disTO
    && Polling(s.slots[1], t) && !s.slots[1].rx.disTO
    && s.slots[1].inb.polls == ps
  }

  /** Slot 1 is opened and reads. */
  lemma Join(s: Sys) returns (s': Sys)
    requires Listening(s, SLOW_TICKS)
    ensures Possible(s, [Provide(1, 0, [0]), Open, Recv(1, At(0), 1, EMPTY_POLL)])
    ensures s' == After(s, [Provide(1, 0, [0]), Open, Recv(1, At(0), 1, EMPTY_POLL)])
    ensures Crowded(s', 1, [Empty])
  {
    var e1, e2, e3 := Provide(1, 0, [0]), Open, Recv(1, At(0), 1, EMPTY_POLL);
    assert Untouched(s.slots[1]);
    var s1 := Next(s, e1);
    assert FirstFree(s1.slots, 0) == 1;
    var s2 := Next(s1, e2);
    FirstPoll(s2.slots[1], 0, 1);
    s' := Next(s2, e3);
    OneEvent(s, e1);
    Extend(s, [e1], e2);
    Extend(s, [e1, e2], e3);
    assert [e1] + [e2] == [e1, e2];
    assert [e1, e2] + [e3] == [e1, e2, e3];
  }

  /** The listener raises the flag, and the flag reaches slot 1. */
  lemma Carried(s: Sys, t: int, ps: seq<Poll>)
    requires Crowded(s, t, ps) && 0 <= t
    ensures var s' := Next(s, Dispatch(SILENT)); var late := t + 1 > READ_TICKS;
      if late then
        && s'.slots[1].rx.state == DataAvailable && s'.slots[1].rx.returnCnt == 0 && !s'.slots[1].rx.disTO
        && s'.slots[1].inb.polls == ps + [Empty]
      else Crowded(s', SLOW_TICKS, ps + [Empty, Slowed])
  {
    ListenerIsSlow(s.slots);
    hide Next, SlowAt, Serve;
    SilentPass(s, 0);
    SilentPass(s, 1);
    SilentShare(s.slots[0], false);
    SilentShare(s.slots[1], true);
  }

  lemma ListenerIsSlow(slots: seq<Slot>)
    requires AllReady(slots) && Polling(slots[0], SLOW_TICKS)
    ensures SlowAt(slots, SILENT, 1)
  {
    FirstLoopStep(slots, SILENT, 0);
    assert RxEvent(slots[0].rx, slots[0].inb, EMPTY_POLL).rx.timer == SLOW_TICKS + 1;
  }

  /** The third empty poll in a row has ended the ordinary read of slot 1. */
  predicate EndedEarly(s: Slot) {
    && s.rx.state == DataAvailable && !s.rx.disTO && s.rx.returnCnt == 0
    && s.inb.polls == [Empty, Empty, Slowed, Empty]
  }

  lemma TwoMorePasses(s: Sys)
    requires Crowded(s, 1, [Empty])
    ensures Possible(s, [Dispatch(SILENT), Dispatch(SILENT)])
    ensures EndedEarly(After(s, [Dispatch(SILENT), Dispatch(SILENT)]).slots[1])
  {
    hide Next, Polling;
    var e := Dispatch(SILENT);
    Carried(s, 1, [Empty]);
    OneEvent(s, e);
    Extend(s, [e], e);
    Carried(Next(s, e), SLOW_TICKS, [Empty] + [Empty, Slowed]);
    assert [e] + [e] == [e, e];
    assert [Empty] + [Empty, Slowed] + [Empty] == [Empty, Empty, Slowed, Empty];
  }

  /** The counterexample: an ordinary read, in a run the driver allows, ended by its third
      empty poll. */
  lemma AnOrdinaryReadTimesOutEarly(s0: Sys)
    requires Initial(s0)
    ensures exists es :: Possible(s0, es) && EndedEarly(After(s0, es).slots[1])
  {
    hide Next, Initial, Listening, Heard, Crowded, EndedEarly, Possible, After;
    InitialIsShaped(s0);
    var es1 := StartListening(s0, 1);
    var es2 := WaitLong(s0, es1, 1, SLOW_TICKS - 1);
    var s1 := Join(After(s0, es2));
    var join := [Provide(1, 0, [0]), Open, Recv(1, At(0), 1, EMPTY_POLL)];
    var passes := [Dispatch(SILENT), Dispatch(SILENT)];
    TwoMorePasses(s1);
    RunAppend(s0, es2, join);
    RunAppend(s0, es2 + join, passes);
    var es := es2 + join + passes;
    assert Possible(s0, es) && EndedEarly(After(s0, es).slots[1]);
  }

  lemma InitialIsShaped(s0: Sys)
    requires Initial(s0)
    ensures Shaped(s0)
  {
  }

  // ---- data that comes twice ----

  /** One pass in which slot 0 is brought one byte. */
  const ONE_BYTE := Answers([Header(1, true), EMPTY_POLL, EMPTY_POLL, EMPTY_POLL, EMPTY_POLL],
                            [TAKEN, TAKEN, TAKEN, TAKEN, TAKEN])

  /** A poll of a listener's slot that brings data, whether or not the last data was fetched: the
      counts add up, past the end of the buffer if need be, and the bytes replace each other. */
  lemma SecondDataLiesOverTheFirst(s: Slot, r: RecvReply, t: SendReply, slow: bool)
    requires Ready(s) && s.rx.disTO && PollOf(r, Moved(s.inb, r, s.rx.reqSize)).Data?
    ensures var s', n, p := Serve(s, r, t, slow), Moved(s.inb, r, s.rx.reqSize), s.rx.dptr;
      var bytes := s.inb.stream[s.inb.taken..s.inb.taken + n];
      && s'.sock == s.sock && s'.rx == s.rx.(state := DataAvailable, timer := s'.rx.timer,
                                             returnCnt := (s.rx.returnCnt + n) % 0x1_0000_0000)
      && s'.inb.mem == s.inb.mem[p := bytes + s.inb.mem[p][n..]]
      && s'.inb.delivered == s.inb.delivered + bytes
      && s'.inb.stream == s.inb.stream && s'.inb.taken == s.inb.taken + n
      && (s.rx.state == ReadStart || s.rx.state == DataAvailable ==> s'.inb.polls == s.inb.polls)
      && (s.rx.state == ReadActive ==> s'.inb.polls == s.inb.polls + [Data(n)])
      && (s.tx.state == TxIdle ==> s'.tx == s.tx)
  {
    ServeHalves(s, r, t, slow);
    DataPoll(s.rx, s.inb, r);
    hide Serve, TxReady, RxReady, RxEvent, Received;
  }

  lemma DataPoll(x: Rx, w: Inbound, r: RecvReply)
    requires RxReady(x, w) && PollOf(r, Moved(w, r, x.reqSize)).Data?
    ensures var e, n := RxEvent(x, w, r), Moved(w, r, x.reqSize);
      && PollOf(r, n) == Data(n)
      && e.rx == x.(state := if x.callback then ReadDocb else DataAvailable,
                    returnCnt := (x.returnCnt + n) % 0x1_0000_0000)
      && e.inb == Logged(x, Received(w, r, x.dptr, x.reqSize), Data(n))
      && Received(w, r, x.dptr, x.reqSize) ==
           (var bytes := w.stream[w.taken..w.taken + n];
            w.(taken := w.taken + n, delivered := w.delivered + bytes,
               mem := w.mem[x.dptr := bytes + w.mem[x.dptr][n..]]))
  {
  }

  /** The pass that brings it. */
  lemma OneBytePass(s: Sys)
    requires Shaped(s) && s.slots[0].rx.disTO && s.slots[0].rx.reqSize >= 1
    requires |s.slots[0].inb.stream| == s.slots[0].inb.taken + 1
    ensures ONE_BYTE.Full() && PollOf(ONE_BYTE.rx[0], 1) == Data(1)
    ensures Moved(s.slots[0].inb, ONE_BYTE.rx[0], s.slots[0].rx.reqSize) == 1
    ensures var s' := Next(s, Dispatch(ONE_BYTE));
      s'.slots[0] == Serve(s.slots[0], ONE_BYTE.rx[0], TAKEN, false) && s'.hists == s.hists
  {
    DispatchAt(s.slots, ONE_BYTE, 0);
    NextIs(s, Dispatch(ONE_BYTE));
  }

  /** A byte more has arrived than was polled. */
  ghost predicate Coming(s: Sys, z: nat, brought: seq<byte>, b: byte, before: Sys)
    requires z >= 1 && Heard(before, z, brought)
  {
    && Shaped(s) && s.hists == before.hists
    && s.slots[0] == before.slots[0].(inb := before.slots[0].inb.(stream := brought + [b]))
  }

  lemma OneByteArrives(s: Sys, z: nat, brought: seq<byte>, b: byte)
    requires 1 <= z && Heard(s, z, brought)
    ensures Enabled(s, Arrive(0, [b])) && Coming(Next(s, Arrive(0, [b])), z, brought, b, s)
  {
    NextIs(s, Arrive(0, [b]));
  }

  lemma OneByteIsPolled(s: Sys, z: nat, brought: seq<byte>, b: byte, before: Sys)
    requires 1 <= z && |brought| < 2 && Heard(before, z, brought) && Coming(s, z, brought, b, before)
    ensures Enabled(s, Dispatch(ONE_BYTE)) && Heard(Next(s, Dispatch(ONE_BYTE)), z, brought + [b])
  {
    OneBytePass(s);
    SecondDataLiesOverTheFirst(s.slots[0], ONE_BYTE.rx[0], TAKEN, false);
    hide Next, Serve, Ready, AllReady;
    var w := s.slots[0].inb;
    assert w.stream[|brought|..|brought| + 1] == [b];
    assert w.mem[0][1..] == Zeros(z)[1..];
  }

  lemma OneByteComes(s: Sys, z: nat, brought: seq<byte>, b: byte)
    requires 1 <= z && Heard(s, z, brought) && |brought| < 2
    ensures var es := [Arrive(0, [b])] + [Dispatch(ONE_BYTE)];
      Possible(s, es) && Heard(After(s, es), z, brought + [b])
  {
    OneByteArrives(s, z, brought, b);
    OneByteIsPolled(Next(s, Arrive(0, [b])), z, brought, b, s);
    assert Shaped(s);
    hide Next, Heard, Coming, Shaped, Enabled;
    OneEvent(s, Arrive(0, [b]));
    Extend(s, [Arrive(0, [b])], Dispatch(ONE_BYTE));
  }

  /** What the application is told: two bytes, though the read was of `z`, and though the buffer
      holds the second alone. */
  predicate FirstByteLost(s: Slot, h: Hist, z: nat) {
    && s.inb.delivered == [7, 8]
    && h.received == [Read(0, z, 2, if z >= 2 then [8, 0] else [], [Empty, Data(1)], true)]
  }

  lemma TwoBytesFetched(s: Sys, z: nat)
    requires 1 <= z < 0x1_0000_0000 && Heard(s, z, [7, 8])
    ensures var e := Recv(0, At(0), z, EMPTY_POLL);
      Enabled(s, e) && FirstByteLost(Next(s, e).slots[0], Next(s, e).hists[0], z)
  {
    var e := Recv(0, At(0), z, EMPTY_POLL);
    NextIs(s, e);
    hide Next;
    var w := s.slots[0].inb;
    if z >= 2 {
      assert w.mem[0][..2] == [8, 0];
    }
  }

  /** The counterexample, for a buffer of any size: bytes 7 and 8 arrive, and what socket_recv
      reports is two bytes, of which the first is 8; with a buffer of one byte the second would
      lie beyond its end. */
  lemma TheFirstByteIsLost(s0: Sys, z: nat)
    requires Initial(s0) && 1 <= z < 0x1_0000_0000
    ensures exists es :: Possible(s0, es) && FirstByteLost(After(s0, es).slots[0], After(s0, es).hists[0], z)
  {
    hide Next, Listening, Heard, FirstByteLost;
    var es1 := StartListening(s0, z);
    var es2, es3 := [Arrive(0, [7])] + [Dispatch(ONE_BYTE)], [Arrive(0, [8])] + [Dispatch(ONE_BYTE)];
    OneByteComes(After(s0, es1), z, [], 7);
    RunAppend(s0, es1, es2);
    assert [] + [7 as byte] == [7];
    OneByteComes(After(s0, es1 + es2), z, [7], 8);
    RunAppend(s0, es1 + es2, es3);
    assert [7 as byte] + [8] == [7, 8];
    TwoBytesFetched(After(s0, es1 + es2 + es3), z);
    Extend(s0, es1 + es2 + es3, Recv(0, At(0), z, EMPTY_POLL));
  }

  // ---- a slot that once listened ----

  /** Somebody holds the slot, does not listen, and has not asked for anything; yet a byte of the
      new connection lies in the buffer of the old one, and the next call reports it, whatever
      buffer it brings. */
  ghost predicate ReadUnasked(s: Slot, h: Hist) {
    && Ready(s) && Live(s) && !s.sock.disTO && h == NO_HIST
    && s.inb.delivered == [7] && s.rx.state == DataAvailable && s.rx.dptr == 0
    && 0 in s.inb.mem && s.inb.mem[0] == [7]
    && forall buf, r :: Fits(s, At(buf), 1) ==>
         Engine.Recv(s, At(buf), 1, r).ret == 1 && Engine.Recv(s, At(buf), 1, r).slot.inb == s.inb
  }

  /** The listener's slot is closed and opened again, and a byte comes. */
  lemma Reopened(s: Sys) returns (es: seq<Event>)
    requires Heard(s, 1, [])
    ensures Possible(s, es) && ReadUnasked(After(s, es).slots[0], After(s, es).hists[0])
  {
    hide Next, Serve;
    var e1, e2, e3, e4 := Close(0), Open, Arrive(0, [7]), Dispatch(ONE_BYTE);
    NextIs(s, e1);
    OneEvent(s, e1);
    var s1 := Next(s, e1);
    assert FirstFree(s1.slots, 0) == 0;
    NextIs(s1, e2);
    Extend(s, [e1], e2);
    var s2 := Next(s1, e2);
    NextIs(s2, e3);
    Extend(s, [e1] + [e2], e3);
    var s3 := Next(s2, e3);
    OneBytePass(s3);
    SecondDataLiesOverTheFirst(s3.slots[0], ONE_BYTE.rx[0], TAKEN, false);
    Extend(s, [e1] + [e2] + [e3], e4);
    es := [e1] + [e2] + [e3] + [e4];
    assert s3.slots[0].inb.stream[0..1] == [7];
    assert [7 as byte] + s3.slots[0].inb.mem[0][1..] == [7];
  }

  lemma AReusedSlotReadsUnasked(s0: Sys)
    requires Initial(s0)
    ensures exists es :: Possible(s0, es) && ReadUnasked(After(s0, es).slots[0], After(s0, es).hists[0])
  {
    hide Next, Listening, Heard, ReadUnasked;
    var es1 := StartListening(s0, 1);
    var es2 := Reopened(After(s0, es1));
    RunAppend(s0, es1, es2);
  }
}
