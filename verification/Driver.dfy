/**
 The socket engine of class BG96Interface: the slot arrays, updated in place under the lock.
 Each method is proved to do to the slots what the functions of module Engine say.
 */
module Driver {
  import opened Common
  import opened Modem
  import opened Engine

  class BG96Interface {
    const sock: array<Sock>      // g_sock
    const tx: array<Tx>          // g_socTx
    const rx: array<Rx>          // g_socRx
    const out: array<Outbound>   // the modem and the application, socket by socket
    const inb: array<Inbound>
    var scheduledEvents: nat
    var pending: nat             // call-backs of GEqEvent waiting in the event queue

    ghost predicate Valid() {
      sock.Length == tx.Length == rx.Length == out.Length == inb.Length == SOCKETS
    }

    ghost function SlotAt(i: nat): Slot
      requires Valid() && i < SOCKETS
      reads sock, tx, out, rx, inb
    {
      Slot(sock[i], tx[i], out[i], rx[i], inb[i])
    }

    ghost function Slots(): (r: seq<Slot>)
      requires Valid()
      reads sock, tx, out, rx, inb
      ensures |r| == SOCKETS && forall i :: 0 <= i < SOCKETS ==> r[i] == SlotAt(i)
    {
      [SlotAt(0), SlotAt(1), SlotAt(2), SlotAt(3), SlotAt(4)]
    }

    /** No slot but `i` has changed. */
    twostate predicate Others(i: nat)
      requires Valid()
      reads sock, tx, out, rx, inb
    {
      forall k :: 0 <= k < SOCKETS && k != i ==>
        && sock[k] == old(sock[k]) && tx[k] == old(tx[k]) && out[k] == old(out[k])
        && rx[k] == old(rx[k]) && inb[k] == old(inb[k])
    }

    ghost function TheQueue(): Queue
      reads this
    {
      Queue(scheduledEvents, pending)
    }

    /** The fields the constructor does not set stay as the allocation left them. */
    constructor (slots: seq<Slot>)
      requires |slots| == SOCKETS
      ensures Valid() && fresh(sock) && fresh(tx) && fresh(out) && fresh(rx) && fresh(inb)
      ensures TheQueue() == Queue(0, 0)
      ensures forall i :: 0 <= i < SOCKETS ==> SlotAt(i) == FirstSlot(slots[i])
    {
      sock := new Sock[SOCKETS](i requires 0 <= i < SOCKETS => slots[i].sock);
      tx := new Tx[SOCKETS](i requires 0 <= i < SOCKETS => slots[i].tx);
      out := new Outbound[SOCKETS](i requires 0 <= i < SOCKETS => slots[i].out);
      rx := new Rx[SOCKETS](i requires 0 <= i < SOCKETS => slots[i].rx);
      inb := new Inbound[SOCKETS](i requires 0 <= i < SOCKETS => slots[i].inb);
      scheduledEvents, pending := 0, 0;
      new;
      ResetAll();
    }

    /** The constructor's loop. */
    method ResetAll()
      requires Valid()
      modifies sock, tx, rx
      ensures forall i :: 0 <= i < SOCKETS ==> SlotAt(i) == FirstSlot(old(SlotAt(i)))
    {
      for i := 0 to SOCKETS
        invariant forall k :: 0 <= k < i ==> SlotAt(k) == FirstSlot(old(SlotAt(k)))
        invariant forall k :: i <= k < SOCKETS ==> SlotAt(k) == old(SlotAt(k))
      {
        Reset(i);
      }
    }

    /** Its body. */
    method Reset(i: nat)
      requires Valid() && i < SOCKETS
      modifies sock, tx, rx
      ensures SlotAt(i) == FirstSlot(old(SlotAt(i))) && Others(i)
    {
      sock[i] := sock[i].(id := -1);
      sock[i] := sock[i].(disTO := false);
      sock[i] := sock[i].(connected := false);
      rx[i] := rx[i].(state := ReadStart);
      rx[i] := rx[i].(disTO := false);
      tx[i] := tx[i].(state := TxIdle);
    }

    method EqSchedule()
      modifies this
      ensures TheQueue() == Schedule(old(TheQueue()))
    {
      if scheduledEvents < SOCKETS {
        scheduledEvents := scheduledEvents + 1;
        pending := pending + 1;
      }
    }

    method TxEvent(i: nat, r: SendReply) returns (more: bool)
      requires Valid() && i < SOCKETS && TxReady(tx[i])
      modifies tx, out
      ensures TxStep(tx[i], out[i], more) == Engine.TxEvent(old(tx[i]), old(out[i]), r)
      ensures Others(i)
    {
      var chunk := tx[i].data[tx[i].dptr..tx[i].dptr + tx[i].reqSize];
      var done := Modem.Send(r);
      out[i] := Sent(out[i], r, chunk);
      if done {
        tx[i] := tx[i].(totalSent := tx[i].totalSent + tx[i].reqSize);
      } else {
        return true;
      }
      if tx[i].totalSent < tx[i].origSize {
        tx[i] := tx[i].(dptr := tx[i].dptr + tx[i].reqSize);
        tx[i] := tx[i].(reqSize := tx[i].origSize - tx[i].totalSent);
        if tx[i].reqSize > BUFF_SIZE {
          tx[i] := tx[i].(reqSize := BUFF_SIZE);
        }
        return true;
      }
      tx[i] := tx[i].(state := TxComplete);
      if tx[i].callback {
        tx[i] := tx[i].(state := TxDocb);
      }
      return false;
    }

    method RxEvent(i: nat, r: RecvReply) returns (more: bool)
      requires Valid() && i < SOCKETS && RxReady(rx[i], inb[i])
      modifies rx, inb
      ensures RxStep(rx[i], inb[i], more) == Engine.RxEvent(old(rx[i]), old(inb[i]), r)
      ensures Others(i)
    {
      var n := Moved(inb[i], r, rx[i].reqSize);
      var cnt := Modem.Recv(r, n);
      inb[i] := Logged(rx[i], Received(inb[i], r, rx[i].dptr, rx[i].reqSize), PollOf(r, n));
      if cnt == DEVICE_ERROR {
        rx[i] := rx[i].(timer := 0);
        return true;
      }
      if cnt > 0 {
        rx[i] := rx[i].(returnCnt := (rx[i].returnCnt + cnt) % 0x1_0000_0000);
        rx[i] := rx[i].(state := DataAvailable);
        if rx[i].callback {
          rx[i] := rx[i].(state := ReadDocb);
        }
        return false;
      }
      rx[i] := rx[i].(timer := rx[i].timer + 1);
      if rx[i].timer > READ_TICKS && !rx[i].disTO {
        rx[i] := rx[i].(state := DataAvailable);
        rx[i] := rx[i].(returnCnt := 0);
        if rx[i].callback {
          rx[i] := rx[i].(state := ReadDocb);
        }
        return false;
      }
      return true;
    }

    method NotifyRx(i: nat)
      requires Valid() && i < SOCKETS
      modifies rx, inb
      ensures SlotAt(i) == Engine.NotifyRx(old(SlotAt(i))) && Others(i)
    {
      if rx[i].state == ReadDocb {
        rx[i] := rx[i].(state := DataAvailable);
        inb[i] := inb[i].(calls := inb[i].calls + 1);
      }
    }

    method NotifyTx(i: nat)
      requires Valid() && i < SOCKETS
      modifies tx, out
      ensures SlotAt(i) == Engine.NotifyTx(old(SlotAt(i))) && Others(i)
    {
      if tx[i].state == TxDocb {
        tx[i] := tx[i].(state := TxComplete);
        out[i] := out[i].(calls := out[i].calls + 1);
      }
    }

    method SocketOpen() returns (ret: int, handle: nat)
      requires Valid()
      modifies sock, tx, out, rx, inb
      ensures handle == FirstFree(old(Slots()), 0)
      ensures ret == NO_SOCKET <==> handle == SOCKETS
      ensures ret == OK <==> handle < SOCKETS
      ensures handle < SOCKETS ==> SlotAt(handle) == OpenSlot(old(Slots())[handle], handle)
      ensures handle < SOCKETS ==>
        sock[handle] == Sock(handle, false, false, false) && tx[handle].state == TxIdle && rx[handle].state == ReadStart
      ensures Others(handle)
    {
      var i := 0;
      while i < SOCKETS && sock[i].id != -1
        invariant i <= SOCKETS && FirstFree(Slots(), 0) == FirstFree(Slots(), i)
      {
        i := i + 1;
      }
      handle := i;
      if i == SOCKETS {
        ret := NO_SOCKET;
      } else {
        tx[i] := tx[i].(state := TxIdle);
        rx[i] := rx[i].(state := ReadStart);
        sock[i] := Sock(i, false, false, false);
        out[i] := NOTHING_SENT;
        inb[i] := NothingReceived(inb[i]);
        ret := OK;
      }
    }

    method SocketClose(handle: nat) returns (ret: int)
      requires Valid() && handle < SOCKETS && (sock[handle].id == -1 || sock[handle].id == handle)
      modifies sock, tx, rx
      ensures ret == if old(sock[handle].id) >= 0 then OK else DEVICE_ERROR
      ensures SlotAt(handle) == if ret == OK then CloseSlot(old(SlotAt(handle))) else old(SlotAt(handle))
      ensures ret == OK ==>
        && sock[handle] == Sock(-1, false, false, false)
        && tx[handle] == old(tx[handle]).(state := TxIdle) && rx[handle] == old(rx[handle]).(state := ReadStart)
      ensures Others(handle)
    {
      ret := DEVICE_ERROR;
      var i := sock[handle].id;
      if i >= 0 {
        tx[i] := tx[i].(state := TxIdle);
        rx[i] := rx[i].(state := ReadStart);
        sock[handle] := Sock(-1, false, false, false);
        ret := OK;
      }
    }

    method SocketSend(handle: nat, data: Pointer, size: nat, r: SendReply) returns (ret: int)
      requires Valid() && handle < SOCKETS && sock[handle].id == handle
      requires Ready(SlotAt(handle)) && size < 0x1_0000_0000 && (data.To? ==> size <= |data.bytes|)
      modifies this, tx, out
      ensures var o := Engine.Send(old(SlotAt(handle)), data, size, r);
        && ret == o.ret
        && SlotAt(handle) == o.slot
        && TheQueue() == if o.schedule then Schedule(old(TheQueue())) else old(TheQueue())
      ensures Others(handle)
    {
      if size < 1 || data.Null? {
        return 0;
      }
      var i := handle;
      match tx[i].state
      case TxIdle =>
        tx[i] := NewTx(SlotAt'(i), data.bytes[..size]);
        var more := TxEvent(i, r);
        if more {
          tx[i] := tx[i].(state := TxActive);
          EqSchedule();
          return WOULD_BLOCK;
        }
        NotifyTx(i);
        tx[i] := tx[i].(state := TxIdle);
        return ToInt32(tx[i].totalSent);
      case TxComplete =>
        tx[i] := tx[i].(state := TxIdle);
        return ToInt32(tx[i].totalSent);
      case TxActive =>
        return WOULD_BLOCK;
      case TxStarting =>
        return WOULD_BLOCK;
      case TxDocb =>
        return DEVICE_ERROR;
    }

    /** The four records of slot `i`, read in executable code. */
    function SlotAt'(i: nat): (s: Slot)
      requires Valid() && i < SOCKETS
      reads sock, tx, out, rx, inb
      ensures s == SlotAt(i)
    {
      Slot(sock[i], tx[i], out[i], rx[i], inb[i])
    }

    method SocketRecv(handle: nat, b: Buffer, size: nat, r: RecvReply) returns (ret: int)
      requires Valid() && handle < SOCKETS && sock[handle].id == handle
      requires Ready(SlotAt(handle)) && size < 0x1_0000_0000 && Fits(SlotAt(handle), b, size)
      modifies this, rx, inb
      ensures var o := Engine.Recv(old(SlotAt(handle)), b, size, r);
        && ret == o.ret
        && SlotAt(handle) == o.slot
        && TheQueue() == if o.schedule then Schedule(old(TheQueue())) else old(TheQueue())
      ensures Others(handle)
    {
      if size < 1 || b.NoBuffer? {
        return 0;
      }
      match rx[handle].state
      case ReadStart =>
        ret := StartRead(handle, b.buf, size, r);
      case DataAvailable =>
        rx[handle] := rx[handle].(state := ReadStart);
        return ToInt32(rx[handle].returnCnt);
      case ReadActive =>
        return WOULD_BLOCK;
      case ReadInit =>
        return WOULD_BLOCK;
      case ReadDocb =>
        return DEVICE_ERROR;
    }

    /** The READ_START arm of socket_recv. */
    method StartRead(i: nat, buf: nat, size: nat, r: RecvReply) returns (ret: int)
      requires Valid() && i < SOCKETS && Ready(SlotAt(i)) && rx[i].state == ReadStart
      requires 0 < size < 0x1_0000_0000 && Fits(SlotAt(i), At(buf), size)
      modifies this, rx, inb
      ensures var o := Engine.Recv(old(SlotAt(i)), At(buf), size, r);
        && ret == o.ret
        && SlotAt(i) == o.slot
        && TheQueue() == if o.schedule then Schedule(old(TheQueue())) else old(TheQueue())
      ensures Others(i)
    {
      rx[i] := NewRx(SlotAt'(i), buf, size);
      inb[i] := inb[i].(polls := []);
      var more := RxEvent(i, r);
      if more {
        rx[i] := rx[i].(state := ReadActive);
        EqSchedule();
        return WOULD_BLOCK;
      }
      NotifyRx(i);
      rx[i] := rx[i].(state := ReadStart);
      return ToInt32(rx[i].returnCnt);
    }

    method SocketAttach(handle: nat, callback: bool)
      requires Valid() && handle < SOCKETS
      modifies sock
      ensures var s := old(SlotAt(handle)); SlotAt(handle) == s.(sock := s.sock.(callback := callback))
      ensures Others(handle)
    {
      sock[handle] := sock[handle].(callback := callback);
    }

    /** BG96::open; after a success, bytes left over in the modem are read and thrown away. */
    method OpenRemote(i: nat, ok: bool, residue: seq<RecvReply>) returns (r: bool)
      requires Valid() && i < SOCKETS && Ready(SlotAt(i)) && (ok ==> Clears(inb[i], residue))
      modifies inb
      ensures r == ok
      ensures SlotAt(i) == old(SlotAt(i)).(inb := if ok then Cleared(old(inb[i]), residue) else old(inb[i]))
      ensures Others(i)
    {
      if ok {
        var k, more := 0, true;
        while more
          invariant k <= |residue| && inb[i].taken <= |inb[i].stream|
          invariant more ==> Clears(inb[i], residue[k..])
          invariant !more ==> k == |residue|
          invariant Cleared(inb[i], residue[k..]) == Cleared(old(inb[i]), residue)
          invariant forall j :: 0 <= j < SOCKETS && j != i ==> inb[j] == old(inb[j])
          decreases |residue| - k
        {
          var cnt := Modem.Recv(residue[k], Moved(inb[i], residue[k], CMD_SIZE));
          inb[i] := Discarded(inb[i], residue[k]);
          assert residue[k..][1..] == residue[k + 1..];
          more := cnt != 0;
          k := k + 1;
        }
      }
      r := ok;
    }

    method SocketConnect(handle: nat, opens: seq<bool>, residue: seq<RecvReply>) returns (ret: int)
      requires Valid() && handle < SOCKETS && Ready(SlotAt(handle)) && Connects(SlotAt(handle), opens, residue)
      modifies sock, inb
      ensures var o := Engine.Connect(old(SlotAt(handle)), opens, residue); ret == o.ret && SlotAt(handle) == o.slot
      ensures ret == if opens[0] || opens[1] then OK else DEVICE_ERROR
      ensures sock[handle] == old(sock[handle]).(connected := old(sock[handle]).connected || ret == OK)
      ensures Others(handle)
    {
      var k, cnt := true, 0;
      while cnt < 3 && k
        invariant cnt <= 3
        invariant k <==> forall j :: 0 <= j < cnt ==> !opens[j]
        invariant !k ==> cnt > 0 && opens[cnt - 1] && forall j :: 0 <= j < cnt - 1 ==> !opens[j]
        invariant SlotAt(handle) ==
          old(SlotAt(handle)).(inb := if k then old(inb[handle]) else Cleared(old(inb[handle]), residue))
        invariant Others(handle)
        decreases 3 - cnt
      {
        var ok := OpenRemote(handle, opens[cnt], residue);
        k := !ok;
        cnt := cnt + 1;
      }
      if cnt < 3 {
        sock[handle] := sock[handle].(connected := true);
        if sock[handle].callback {
          inb[handle] := inb[handle].(calls := inb[handle].calls + 1);
        }
        ret := OK;
      } else {
        ret := DEVICE_ERROR;
      }
    }

    method SocketListen(handle: nat) returns (ret: int)
      requires Valid() && handle < SOCKETS
      modifies this, sock
      ensures var s := old(SlotAt(handle));
        && ret == (if s.sock.connected then NO_CONNECTION else OK)
        && SlotAt(handle) == (if s.sock.connected then s else s.(sock := s.sock.(disTO := true)))
        && TheQueue() == (if s.sock.connected then old(TheQueue()) else Schedule(old(TheQueue())))
      ensures Others(handle)
    {
      ret := OK;
      if !sock[handle].connected {
        sock[handle] := sock[handle].(disTO := true);
        EqSchedule();
      } else {
        ret := NO_CONNECTION;
      }
    }

    /** The arrays and the flag `done` are those of `p`. */
    ghost predicate Is(p: Pass, done: bool)
      requires Valid() && |p.slots| == SOCKETS
      reads sock, tx, out, rx, inb
    {
      p.more == done && forall k :: 0 <= k < SOCKETS ==> p.slots[k] == SlotAt(k)
    }

    /** The receive half of one iteration of the first loop. */
    method VisitRx(i: nat, r: RecvReply, goSlow: bool) returns (more: bool, slow: bool)
      requires Valid() && i < SOCKETS && Ready(SlotAt(i))
      modifies rx, inb
      ensures var s := old(SlotAt(i));
        RxStep(rx[i], inb[i], more) == SlowedRx(s, r, goSlow) && slow == SlowAfterRx(s, r, goSlow)
      ensures Others(i)
    {
      more, slow := false, goSlow;
      if rx[i].state == ReadActive || rx[i].disTO {
        more := RxEvent(i, r);
        slow := slow || rx[i].timer > (READ_TIMEOUT_MS / EQ_FREQ) * (EQ_FREQ_SLOW / EQ_FREQ);
        if slow {
          rx[i] := rx[i].(timer := (READ_TIMEOUT_MS / EQ_FREQ) * (EQ_FREQ_SLOW / EQ_FREQ));
          inb[i] := Logged(rx[i], inb[i], Slowed);
        }
      }
    }

    /** The transmit half. */
    method VisitTx(i: nat, t: SendReply, goSlow: bool) returns (more: bool, slow: bool)
      requires Valid() && i < SOCKETS && (tx[i].state == TxActive ==> TxReady(tx[i]))
      modifies tx, out
      ensures TxStep(tx[i], out[i], more) == Engine.VisitTx(old(SlotAt(i)), t)
      ensures slow == (goSlow && old(tx[i]).state != TxActive)
      ensures Others(i)
    {
      more, slow := false, goSlow;
      if tx[i].state == TxActive {
        slow := false;
        more := TxEvent(i, t);
      }
    }

    /** One iteration. */
    method VisitSlot(i: nat, r: RecvReply, t: SendReply, done: bool, goSlow: bool) returns (more: bool, slow: bool)
      requires Valid() && i < SOCKETS && Ready(SlotAt(i))
      modifies tx, out, rx, inb
      ensures var v := Engine.VisitSlot(old(SlotAt(i)), r, t, goSlow);
        SlotAt(i) == v.slot && more == (done || v.more) && slow == v.slow
      ensures Others(i)
    {
      hide SlowedRx, SlowAfterRx, Engine.TxEvent, Engine.RxEvent, TxReady;
      more, slow := VisitRx(i, r, goSlow);
      var txMore;
      txMore, slow := VisitTx(i, t, slow);
      more := done || more || txMore;
    }

    /** The first loop of g_eq_event. */
    method RunFirstLoop(a: Answers) returns (done: bool)
      requires Valid() && AllReady(Slots()) && a.Full()
      modifies tx, out, rx, inb
      ensures Is(FirstLoop(old(Slots()), a, SOCKETS), done)
    {
      hide Engine.VisitSlot, Ready;
      ghost var before := Slots();
      done := false;
      var goSlow := false;
      for i := 0 to SOCKETS
        invariant Is(FirstLoop(before, a, i), done)
        invariant goSlow == FirstLoop(before, a, i).slow
      {
        FirstLoopStep(before, a, i);
        done, goSlow := VisitSlot(i, a.rx[i], a.tx[i], done, goSlow);
      }
    }

    /** The second loop. */
    method SecondLoop()
      requires Valid()
      modifies tx, out, rx, inb
      ensures Slots() == NotifyAll(old(Slots()))
    {
      for i := 0 to SOCKETS
        invariant forall k :: 0 <= k < i ==> SlotAt(k) == Notify(old(SlotAt(k)))
        invariant forall k :: i <= k < SOCKETS ==> SlotAt(k) == old(SlotAt(k))
      {
        NotifyRx(i);
        NotifyTx(i);
      }
    }

    /** One call of g_eq_event by the event queue; `locked` is the outcome of trylock. */
    method GEqEvent(locked: bool, a: Answers)
      requires Valid() && AllReady(Slots()) && a.Full()
      modifies this, tx, out, rx, inb
      ensures var d := Dispatch(old(Slots()), a);
        && Slots() == (if locked then d.slots else old(Slots()))
        && TheQueue() == AfterEvent(old(TheQueue()), locked, d.more)
    {
      if scheduledEvents > 0 {
        scheduledEvents := scheduledEvents - 1;
      }
      if !locked {
        EqSchedule();
        return;
      }
      ghost var p := FirstLoop(Slots(), a, SOCKETS);
      var done := RunFirstLoop(a);
      assert Slots() == p.slots;
      SecondLoop();
      if done {
        EqSchedule();
      }
    }
  }
}
