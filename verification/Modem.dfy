/**
 The modem as the driver sees it: the two transfer commands of class BG96, each driven by
 what the AT-command parser reports, and the part of the world the modem acts on.
 */
module Modem {
  import opened Common

  type byte = bv8

  const OK: int := 0
  const WOULD_BLOCK: int := -3001
  const NO_CONNECTION: int := -3004
  const NO_SOCKET: int := -3005
  const DEVICE_ERROR: int := -3012

  /** The largest payload of one transfer command (BG96_BUFF_SIZE). */
  const BUFF_SIZE: nat := 1500

  /** What the parser reports during one AT+QISEND exchange. */
  datatype SendReply = SendReply(command: bool, prompt: bool, written: int, sendOk: bool)

  /** The modem took the chunk: prompted, written, confirmed. */
  predicate Accepts(r: SendReply) {
    r.command && r.prompt && 0 < r.written && r.sendOk
  }

  /** What BG96::send answers. */
  predicate Claims(r: SendReply) {
    !r.command || (r.prompt && r.written <= 0) || r.sendOk
  }

  /** The guards of the branches on which the answer of BG96::send can be trusted. */
  predicate Honest(r: SendReply) {
    r.command && if r.prompt then 0 < r.written else !r.sendOk
  }

  method Send(r: SendReply) returns (done: bool)
    ensures done <==> Claims(r)
    ensures Honest(r) <==> (done <==> Accepts(r))
  {
    done := !r.command;
    if !done && r.prompt {
      done := r.written <= 0;
    }
    if !done {
      done := r.sendOk;
    }
  }

  /** A failed command is answered with true although nothing was accepted. */
  lemma SendClaimsAFailedCommand()
    ensures exists r: SendReply :: Claims(r) && !Accepts(r)
  {
    assert Claims(SendReply(false, false, 0, false));
  }

  /** BG96::send is right about the chunk exactly on the honest branches. */
  lemma SendIsRightExactlyWhenHonest(r: SendReply)
    ensures (Claims(r) <==> Accepts(r)) <==> Honest(r)
    ensures Accepts(r) ==> Claims(r)
  {
  }

  /** What the parser reports during one AT+QIRD exchange: no header line at all, or a
      byte count followed (or not) by the closing OK. */
  datatype RecvReply = NoHeader | Header(count: int, closed: bool)

  /** What befalls a read in progress: a poll and how it went, as the driver sees it; or a pass
      that found the slow flag up and set the timer. */
  datatype Poll = Failed | Empty | Data(n: nat) | Slowed

  /** The receiving side of one socket's outside: the connection and the application's memory. */
  datatype Inbound = Inbound(
    stream: seq<byte>,           // every byte the network brought since the socket was opened
    taken: nat,                  // how many of them the modem has handed over the UART
    delivered: seq<byte>,        // the ones handed over by a poll that succeeded
    lost: nat,                   // how many by a poll that failed, or thrown away when connecting
    polls: seq<Poll>,            // what befell the last read started
    mem: map<nat, seq<byte>>,    // the application's receive buffers
    calls: nat)                  // receive and connect call-backs made

  /** The sending side. */
  datatype Outbound = Outbound(
    wire: seq<seq<byte>>,        // payloads for which BG96::send answered true
    air: seq<seq<byte>>,         // payloads the modem really accepted
    replies: seq<SendReply>,     // every AT+QISEND exchange since the socket was opened
    calls: nat)                  // transmit call-backs made

  /** How many bytes an AT+QIRD for at most `cnt` bytes moves. */
  function Moved(w: Inbound, r: RecvReply, cnt: nat): (n: nat)
    requires w.taken <= |w.stream|
    ensures n <= cnt && w.taken + n <= |w.stream|
  {
    if r.NoHeader? || r.count <= 0 then 0 else Min(r.count, Min(cnt, |w.stream| - w.taken))
  }

  /** The value BG96::recv returns when `n` bytes were moved. */
  function RecvValue(r: RecvReply, n: nat): int {
    if r.NoHeader? then DEVICE_ERROR
    else if n == 0 then Min(r.count, 0)
    else if r.closed then n
    else DEVICE_ERROR
  }

  /** What rx_event makes of that value. */
  function PollOf(r: RecvReply, n: nat): Poll {
    var value := RecvValue(r, n);
    if value == DEVICE_ERROR then Failed else if value > 0 then Data(value) else Empty
  }

  /** Which polls fail and which are empty: a negative count counts as nothing there, unless it
      is the error code itself. */
  lemma PollsToldApart(r: RecvReply, n: nat)
    requires n > 0 ==> r.Header? && n <= r.count
    ensures PollOf(r, n).Failed? <==> r.NoHeader? || (if n > 0 then !r.closed else r.count == DEVICE_ERROR)
    ensures PollOf(r, n).Data? <==> n > 0 && r.closed
    ensures PollOf(r, n).Empty? <==> n == 0 && r.Header? && r.count != DEVICE_ERROR
  {
  }

  /** BG96::recv, when AT+QIRD moves `n` bytes. A negative count is handed on as it is. */
  method Recv(r: RecvReply, n: nat) returns (ret: int)
    requires n > 0 ==> r.Header? && n <= r.count
    ensures ret == RecvValue(r, n)
    ensures r.Header? && r.count >= 0 ==> (ret == n <==> n == 0 || r.closed)
    ensures ret == DEVICE_ERROR <==> r.NoHeader? || (n > 0 && !r.closed) || (n == 0 && r.count == DEVICE_ERROR)
  {
    ret := 0;
    if r.Header? {
      var rxCount: int := if r.count < 0 then r.count else n;
      if rxCount > 0 {
        if !r.closed {
          rxCount := DEVICE_ERROR;
        }
      }
      ret := rxCount;
    } else {
      ret := DEVICE_ERROR;
    }
  }

  /** The connection after AT+QIRD has moved bytes to the start of buffer `p`. */
  function Received(w: Inbound, r: RecvReply, p: nat, cnt: nat): Inbound
    requires w.taken <= |w.stream|
    requires p in w.mem && cnt <= |w.mem[p]|
  {
    var n := Moved(w, r, cnt);
    var bytes := w.stream[w.taken..w.taken + n];
    var poll := PollOf(r, n);
    w.(taken := w.taken + n,
       delivered := if poll.Data? then w.delivered + bytes else w.delivered,
       lost := if poll.Data? then w.lost else w.lost + n,
       mem := w.mem[p := bytes + w.mem[p][n..]])
  }

  // ---- what BG96::open reads and throws away ----

  /** The size of the local buffer it reads into. */
  const CMD_SIZE: nat := 20

  function Discarded(w: Inbound, r: RecvReply): Inbound
    requires w.taken <= |w.stream|
  {
    var n := Moved(w, r, CMD_SIZE);
    w.(taken := w.taken + n, lost := w.lost + n)
  }

  /** With these answers the loop ends: only the last read returns 0. */
  predicate Clears(w: Inbound, rs: seq<RecvReply>)
    requires w.taken <= |w.stream|
    decreases |rs|
  {
    && rs != []
    && if RecvValue(rs[0], Moved(w, rs[0], CMD_SIZE)) == 0 then |rs| == 1
       else Clears(Discarded(w, rs[0]), rs[1..])
  }

  /** The connection after these reads: their bytes are gone, and nothing else has changed. */
  function Cleared(w: Inbound, rs: seq<RecvReply>): (w': Inbound)
    requires w.taken <= |w.stream|
    ensures w.taken <= w'.taken <= |w.stream|
    ensures w' == w.(taken := w'.taken, lost := w.lost + w'.taken - w.taken)
    decreases |rs|
  {
    if rs == [] then w else Cleared(Discarded(w, rs[0]), rs[1..])
  }

  /** A modem that hands over all it has, as far as the buffer goes. */
  predicate Generous(rs: seq<RecvReply>) {
    forall k :: 0 <= k < |rs| ==> rs[k].Header? && rs[k].count >= CMD_SIZE
  }

  /** ... and closes every read with OK. */
  predicate Prompt(rs: seq<RecvReply>) {
    Generous(rs) && forall k :: 0 <= k < |rs| ==> rs[k].closed
  }

  /** With such a modem the loop ends: one read for each 20 bytes, or part of it, and one more. */
  lemma {:induction false} TheLoopEnds(w: Inbound) returns (rs: seq<RecvReply>)
    requires w.taken <= |w.stream|
    ensures Prompt(rs) && Clears(w, rs) && |rs| == (|w.stream| - w.taken + CMD_SIZE - 1) / CMD_SIZE + 1
    decreases |w.stream| - w.taken
  {
    var r := Header(CMD_SIZE, true);
    if w.taken == |w.stream| {
      rs := [r];
    } else {
      var rest := TheLoopEnds(Discarded(w, r));
      rs := [r] + rest;
      assert rs[1..] == rest;
    }
  }

  /** With such a modem nothing that came before is left after the loop. */
  lemma {:induction false} NothingIsLeft(w: Inbound, rs: seq<RecvReply>)
    requires w.taken <= |w.stream| && Clears(w, rs) && Generous(rs)
    ensures Cleared(w, rs).taken == |w.stream|
    decreases |rs|
  {
    if RecvValue(rs[0], Moved(w, rs[0], CMD_SIZE)) != 0 {
      NothingIsLeft(Discarded(w, rs[0]), rs[1..]);
    } else {
      assert rs[0].Header? && rs[1..] == [];
    }
  }

  /** The connection after one AT+QISEND exchange for `chunk`. */
  function Sent(w: Outbound, r: SendReply, chunk: seq<byte>): Outbound {
    w.(replies := w.replies + [r],
       wire := if Claims(r) then w.wire + [chunk] else w.wire,
       air := if Accepts(r) then w.air + [chunk] else w.air)
  }
}
