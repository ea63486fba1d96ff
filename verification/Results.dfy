/**
 What the calls return, over whole runs: a call of socket_send or socket_recv reports a transfer
 or a read, or it says WOULD_BLOCK, and which of the two is told by the state it leaves.
 */
module Results {
  import opened Common
  import opened Modem
  import opened Engine
  import opened System
  import opened Transmit
  import opened Receive
  import opened Notices

  // ---- one call ----

  /** A call of socket_send, or of socket_recv, on slot `i` with something to send or receive. */
  predicate Asks(e: Event, i: nat, sending: bool) {
    if sending then e.Send? && e.i == i && e.size >= 1 && e.data.To?
    else e.Recv? && e.i == i && e.size >= 1 && e.b.At?
  }

  /** The background is to go on with it. */
  predicate Waits(s: Slot, sending: bool) {
    if sending then s.tx.state == TxActive else s.rx.state == ReadActive
  }

  function Rets(rs: seq<Read>): (xs: seq<int>)
    ensures |xs| == |rs| && forall k :: 0 <= k < |xs| ==> xs[k] == rs[k].ret
  {
    if rs == [] then [] else Rets(rs[..|rs| - 1]) + [rs[|rs| - 1].ret]
  }

  lemma RetsMore(rs: seq<Read>, r: Read)
    ensures Rets(rs + [r]) == Rets(rs) + [r.ret]
  {
    assert (rs + [r])[..|rs|] == rs;
  }

  /** What the calls have reported so far. */
  function Reported(h: Hist, sending: bool): seq<int> {
    if sending then h.returned else Rets(h.received)
  }

  /** socket_send: nothing to send is answered with 0; a call says WOULD_BLOCK exactly when it
      leaves a transfer in progress, and changes nothing if it found one; any other call reports. */
  lemma SendAnswers(s: Slot, h: Hist, e: Event)
    requires e.Send? && Ready(s) && EnabledAt(s, e) && Resting(s)
    ensures var s', h', ret := Act(s, e), Note(s, h, e), Answer(s, e);
      && (!Asks(e, e.i, true) ==> ret == 0 && s' == s && h' == h)
      && (Asks(e, e.i, true) && s'.tx.state == TxActive ==>
            ret == WOULD_BLOCK && h'.returned == h.returned && (s.tx.state == TxActive ==> s' == s))
      && (Asks(e, e.i, true) && s'.tx.state != TxActive ==>
            s'.tx.state == TxIdle && s.tx.state != TxActive && h'.returned == h.returned + [ret])
  {
    hide Sent, ToInt32;
  }

  /** socket_recv likewise. */
  lemma RecvAnswers(s: Slot, h: Hist, e: Event)
    requires e.Recv? && Ready(s) && EnabledAt(s, e) && Resting(s)
    ensures var s', h', ret := Act(s, e), Note(s, h, e), Answer(s, e);
      && (!Asks(e, e.i, false) ==> ret == 0 && s' == s && h' == h)
      && (Asks(e, e.i, false) && s'.rx.state == ReadActive ==>
            ret == WOULD_BLOCK && h'.received == h.received && (s.rx.state == ReadActive ==> s' == s))
      && (Asks(e, e.i, false) && s'.rx.state != ReadActive ==>
            && s'.rx.state == ReadStart && s.rx.state != ReadActive
            && |h'.received| == |h.received| + 1 && h.received <= h'.received
            && h'.received[|h.received|].ret == ret)
  {
    hide Received, Front, ToInt32, PollOf;
  }

  // ---- over a run ----

  /** The result of the event, if it asks. */
  ghost function ResultOf(s: Sys, e: Event, i: nat, sending: bool): seq<int>
    requires Shaped(s) && Enabled(s, e) && i < SOCKETS
  {
    if Asks(e, i, sending) then [Answer(s.slots[i], e)] else []
  }

  /** ... and leaves nothing to the background. */
  ghost function ReportOf(s: Sys, e: Event, i: nat, sending: bool): seq<int>
    requires Shaped(s) && Enabled(s, e) && i < SOCKETS
  {
    if Asks(e, i, sending) && !Waits(Next(s, e).slots[i], sending) then [Answer(s.slots[i], e)] else []
  }

  /** The results of all the calls that ask, in order. */
  ghost function ResultsOf(s: Sys, es: seq<Event>, i: nat, sending: bool): seq<int>
    requires Shaped(s) && Possible(s, es) && i < SOCKETS
    decreases |es|
  {
    if es == [] then [] else ResultOf(s, es[0], i, sending) + ResultsOf(Next(s, es[0]), es[1..], i, sending)
  }

  ghost function ReportsOf(s: Sys, es: seq<Event>, i: nat, sending: bool): seq<int>
    requires Shaped(s) && Possible(s, es) && i < SOCKETS
    decreases |es|
  {
    if es == [] then [] else ReportOf(s, es[0], i, sending) + ReportsOf(Next(s, es[0]), es[1..], i, sending)
  }

  /** All but the WOULD_BLOCKs. */
  function Unblocked(xs: seq<int>): seq<int> {
    if xs == [] then []
    else Unblocked(xs[..|xs| - 1]) + if xs[|xs| - 1] == WOULD_BLOCK then [] else [xs[|xs| - 1]]
  }

  lemma {:induction false} UnblockedAppend(a: seq<int>, b: seq<int>)
    ensures Unblocked(a + b) == Unblocked(a) + Unblocked(b)
  {
    if b == [] {
      assert a + b == a;
    } else {
      assert (a + b)[..|a + b| - 1] == a + b[..|b| - 1];
      UnblockedAppend(a, b[..|b| - 1]);
    }
  }

  lemma {:induction false} NothingBlocked(xs: seq<int>)
    requires forall k :: 0 <= k < |xs| ==> xs[k] != WOULD_BLOCK
    ensures Unblocked(xs) == xs
  {
    if xs != [] {
      NothingBlocked(xs[..|xs| - 1]);
      assert xs == xs[..|xs| - 1] + [xs[|xs| - 1]];
    }
  }

  lemma {:induction false} PositivesOfUnblocked(xs: seq<int>)
    ensures Positives(Unblocked(xs)) == Positives(xs)
  {
    if xs != [] {
      PositivesOfUnblocked(xs[..|xs| - 1]);
      var u, x := Unblocked(xs[..|xs| - 1]), xs[|xs| - 1];
      assert (u + [x])[..|u|] == u && u + [] == u;
      assert Unblocked(xs) == if x == WOULD_BLOCK then u else u + [x];
    }
  }

  lemma LocalReports(s: Slot, h: Hist, e: Event, sending: bool)
    requires Local(e) && Ready(s) && EnabledAt(s, e) && Resting(s)
    ensures Reported(Note(s, h, e), sending) == Reported(h, sending) +
      if Asks(e, e.i, sending) && !Waits(Act(s, e), sending) then [Answer(s, e)] else []
    ensures Asks(e, e.i, sending) && Waits(Act(s, e), sending) ==> Answer(s, e) == WOULD_BLOCK
  {
    hide Rets, Act, Answer;
    if e.Send? {
      SendAnswers(s, h, e);
    } else if e.Recv? {
      RecvAnswers(s, h, e);
      var h' := Note(s, h, e);
      if |h'.received| > |h.received| {
        assert h'.received == h.received + [h'.received[|h.received|]];
        RetsMore(h.received, h'.received[|h.received|]);
      }
    }
  }

  lemma StepReports(s: Sys, e: Event, i: nat, sending: bool)
    requires Shaped(s) && Enabled(s, e) && i < SOCKETS && Live(s.slots[i]) && Kept(s.slots[i], s.hists[i])
    requires !(e.Close? && e.i == i)
    ensures Live(Next(s, e).slots[i])
    ensures Reported(Next(s, e).hists[i], sending) == Reported(s.hists[i], sending) + ReportOf(s, e, i, sending)
    ensures Unblocked(ResultOf(s, e, i, sending)) == Unblocked(ReportOf(s, e, i, sending))
  {
    NextIs(s, e);
    hide Next, Serve, TxKept, Reported, Note, Act, Answer;
    if e.Dispatch? {
      DispatchAt(s.slots, e.a, i);
      ServeHalves(s.slots[i], e.a.rx[i], e.a.tx[i], SlowAt(s.slots, e.a, i));
    } else if Local(e) && e.i == i {
      LocalReports(s.slots[i], s.hists[i], e, sending);
      StaysLive(s.slots[i], e);
    }
  }

  lemma StaysLive(s: Slot, e: Event)
    requires Local(e) && !e.Close? && Ready(s) && EnabledAt(s, e) && Live(s)
    ensures Live(Act(s, e))
  {
    CallHalves(s, e);
  }

  lemma {:induction false} RunReports(s: Sys, es: seq<Event>, i: nat, sending: bool)
    requires Shaped(s) && Possible(s, es) && i < SOCKETS && Live(s.slots[i]) && Kept(s.slots[i], s.hists[i])
    requires KeptOpen(es, i)
    ensures Reported(After(s, es).hists[i], sending) == Reported(s.hists[i], sending) + ReportsOf(s, es, i, sending)
    ensures Unblocked(ResultsOf(s, es, i, sending)) == Unblocked(ReportsOf(s, es, i, sending))
    ensures Live(After(s, es).slots[i])
    decreases |es|
  {
    hide Kept, ResultOf, ReportOf, Live, Reported, Unblocked;
    if es != [] {
      var s1 := Next(s, es[0]);
      StepReports(s, es[0], i, sending);
      NextKeepsKept(s, es[0], i);
      RunReports(s1, es[1..], i, sending);
      UnblockedAppend(ResultOf(s, es[0], i, sending), ResultsOf(s1, es[1..], i, sending));
      UnblockedAppend(ReportOf(s, es[0], i, sending), ReportsOf(s1, es[1..], i, sending));
    }
  }

  /**
   Over any stretch of any run in which a socket is not closed, for sending and for receiving:
   the calls that leave nothing to the background are the ones that report, with the values
   reported, one for one and in order; and every other call says WOULD_BLOCK.
   */
  lemma {:induction false} CallsReportOrBlock(s0: Sys, before: seq<Event>, es: seq<Event>, i: nat, sending: bool)
    requires Initial(s0) && Possible(s0, before) && Possible(After(s0, before), es)
    requires i < SOCKETS && Live(After(s0, before).slots[i]) && KeptOpen(es, i)
    ensures var s := After(s0, before);
      && Reported(After(s, es).hists[i], sending) == Reported(s.hists[i], sending) + ReportsOf(s, es, i, sending)
      && Unblocked(ResultsOf(s, es, i, sending)) == Unblocked(ReportsOf(s, es, i, sending))
  {
    RunKeepsKept(s0, before, i);
    RunReports(After(s0, before), es, i, sending);
  }

  // ---- what the caller of socket_recv sees ----

  lemma {:induction false} SumRets(rs: seq<Read>)
    requires forall k :: 0 <= k < |rs| ==> GoodRead(rs[k])
    ensures Sum(Positives(Rets(rs))) == |Bytes(rs)|
  {
    if rs != [] {
      var front, x := rs[..|rs| - 1], rs[|rs| - 1].ret;
      SumRets(front);
      assert GoodRead(rs[|rs| - 1]);
      hide GoodRead;
      assert Rets(rs)[..|rs| - 1] == Rets(front);
      SumAppend(Positives(Rets(front)), if x > 0 then [x] else []);
    }
  }

  lemma {:induction false} PositivesAppend(a: seq<int>, b: seq<int>)
    ensures Positives(a + b) == Positives(a) + Positives(b)
  {
    if b == [] {
      assert a + b == a;
    } else {
      assert (a + b)[..|a + b| - 1] == a + b[..|b| - 1];
      PositivesAppend(a, b[..|b| - 1]);
    }
  }

  /**
   On a socket that is never disturbed, as one that never listens: but for the WOULD_BLOCKs, the
   results of socket_recv over a stretch are those of the reads reported, in order, and the
   positive ones add up to the bytes of these reads.
   */
  lemma {:induction false} RecvResultsAreTheReads(s0: Sys, before: seq<Event>, es: seq<Event>, i: nat)
    requires Initial(s0) && Possible(s0, before) && Possible(After(s0, before), es)
    requires i < SOCKETS && Live(After(s0, before).slots[i]) && KeptOpen(es, i)
    requires Undisturbed(s0, before, i) && Undisturbed(After(s0, before), es, i)
    ensures var s := After(s0, before);
      var earlier, now, results := s.hists[i].received, After(s, es).hists[i].received, ResultsOf(s, es, i, false);
      && Rets(now) == Rets(earlier) + Unblocked(results)
      && |Bytes(now)| == |Bytes(earlier)| + Sum(Positives(results))
  {
    var s := After(s0, before);
    RunKeepsKept(s0, before, i);
    RunReports(s, es, i, false);
    RunKeepsRx(s0, before, i);
    RunKeepsRx(s, es, i);
    hide Next, Possible, After, Undisturbed, KeptOpen, Kept;
    ReportsAreUnblocked(s.hists[i].received, After(s, es).hists[i].received,
                        ReportsOf(s, es, i, false), ResultsOf(s, es, i, false));
  }

  lemma NeverBlocked(r: Read)
    requires GoodRead(r)
    ensures r.ret != WOULD_BLOCK
  {
  }

  lemma ReportsNeverBlock(rs: seq<Read>, rs': seq<Read>, reports: seq<int>)
    requires Rets(rs') == Rets(rs) + reports && forall k :: 0 <= k < |rs'| ==> GoodRead(rs'[k])
    ensures Unblocked(reports) == reports
  {
    forall k | 0 <= k < |reports| ensures reports[k] != WOULD_BLOCK {
      assert reports[k] == Rets(rs')[|rs| + k];
      NeverBlocked(rs'[|rs| + k]);
    }
    hide GoodRead;
    NothingBlocked(reports);
  }

  lemma ReportsAreUnblocked(rs: seq<Read>, rs': seq<Read>, reports: seq<int>, results: seq<int>)
    requires Rets(rs') == Rets(rs) + reports && Unblocked(results) == Unblocked(reports)
    requires forall k :: 0 <= k < |rs| ==> GoodRead(rs[k])
    requires forall k :: 0 <= k < |rs'| ==> GoodRead(rs'[k])
    ensures Rets(rs') == Rets(rs) + Unblocked(results)
    ensures |Bytes(rs')| == |Bytes(rs)| + Sum(Positives(results))
  {
    ReportsNeverBlock(rs, rs', reports);
    SumRets(rs);
    SumRets(rs');
    PositivesOfUnblocked(results);
    PositivesAppend(Rets(rs), reports);
    SumAppend(Positives(Rets(rs)), Positives(reports));
    hide Unblocked, Positives, Sum, Bytes, Rets, GoodRead;
  }
}
