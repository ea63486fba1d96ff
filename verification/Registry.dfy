/**
 The subscriptions of class BG96MQTTClient: a singly linked list of nodes, searched by
 topic, and the task that hands incoming messages to the handlers found there.
 */
module Registry {
  import opened Common
  import opened Topics

  // ---- the specification, on sequences ----

  /** One subscription; `handler` None is the NULL function pointer. */
  datatype Entry = Entry(topic: string, handler: Option<nat>, qos: int, msgId: int)

  /** What the modem is asked for. */
  datatype Request = AskSubscribe(topic: string, qos: int, msgId: int) | AskUnsubscribe(topic: string, msgId: int)

  predicate Matches(e: Entry, topic: string) {
    Path(e.topic) == Path(topic)
  }

  /** What a lookup is for: the first entry whose path is the topic's, if any. */
  function FirstMatch(es: seq<Entry>, topic: string): (k: nat)
    ensures k <= |es| && (k < |es| ==> Matches(es[k], topic))
    ensures forall j :: 0 <= j < k ==> !Matches(es[j], topic)
  {
    if es == [] || Matches(es[0], topic) then 0 else 1 + FirstMatch(es[1..], topic)
  }

  predicate Holds(es: seq<Entry>, topic: string) {
    exists k :: 0 <= k < |es| && Matches(es[k], topic)
  }

  /** What findSubscriptionByTopic computes: it stops at the last node without looking. */
  function Found(es: seq<Entry>, topic: string): (k: nat)
    requires es != []
    ensures k < |es|
  {
    if |es| == 1 || Matches(es[0], topic) then 0 else 1 + Found(es[1..], topic)
  }

  /** The loop finds the first match whenever there is one, and otherwise returns the last node;
      so it is a lookup exactly when the list is empty or holds a match. */
  lemma {:induction false} FoundExactly(es: seq<Entry>, topic: string)
    requires es != []
    ensures Found(es, topic) == Min(FirstMatch(es, topic), |es| - 1)
    ensures Found(es, topic) == FirstMatch(es, topic) <==> Holds(es, topic)
    ensures !Holds(es, topic) <==> FirstMatch(es, topic) == |es|
  {
    if !Matches(es[0], topic) && |es| > 1 {
      FoundExactly(es[1..], topic);
      assert FirstMatch(es, topic) == 1 + FirstMatch(es[1..], topic);
    }
    if FirstMatch(es, topic) < |es| {
      assert Matches(es[FirstMatch(es, topic)], topic);
    }
  }

  /** subscribe and unsubscribe, on the list. */
  function Subscribed(es: seq<Entry>, e: Entry): seq<Entry> {
    if es == [] then [e] else es
  }

  function Unsubscribed(es: seq<Entry>, topic: string): seq<Entry> {
    if es == [] then [] else Without(es, Found(es, topic))
  }

  /** What unsubscribe asks the modem for. */
  function UnsubscribeRequest(es: seq<Entry>, topic: string): seq<Request> {
    if es == [] then [] else [AskUnsubscribe(es[Found(es, topic)].topic, es[Found(es, topic)].msgId)]
  }

  function Without<T>(s: seq<T>, k: nat): seq<T>
    requires k < |s|
  {
    s[..k] + s[k + 1..]
  }

  lemma WithoutAt<T>(s: seq<T>, k: nat)
    requires k < |s|
    ensures forall i :: 0 <= i < |s| - 1 ==> Without(s, k)[i] == s[if i < k then i else i + 1]
  {
  }

  /** What subscribing is for: the entry joins the list unless its path is there. */
  function Joined(es: seq<Entry>, e: Entry): seq<Entry> {
    if Holds(es, e.topic) then es else es + [e]
  }

  datatype Op = Subscribe(e: Entry) | Unsubscribe(topic: string)

  function Applied(es: seq<Entry>, op: Op): seq<Entry> {
    match op
    case Subscribe(e) => Subscribed(es, e)
    case Unsubscribe(topic) => Unsubscribed(es, topic)
  }

  function AllApplied(es: seq<Entry>, ops: seq<Op>): seq<Entry>
    decreases |ops|
  {
    if ops == [] then es else AllApplied(Applied(es, ops[0]), ops[1..])
  }

  ghost predicate DistinctPaths(es: seq<Entry>) {
    forall j, k :: 0 <= j < k < |es| ==> Path(es[j].topic) != Path(es[k].topic)
  }

  /** Every run keeps the paths distinct and never makes a list of more than one entry longer;
      from an empty list no run ever has two. */
  lemma {:induction false} RunsKeepPathsDistinct(es: seq<Entry>, ops: seq<Op>)
    requires DistinctPaths(es)
    ensures DistinctPaths(AllApplied(es, ops))
    ensures |AllApplied(es, ops)| <= if es == [] then 1 else |es|
    decreases |ops|
  {
    if ops != [] {
      RunsKeepPathsDistinct(Applied(es, ops[0]), ops[1..]);
    }
  }

  /** subscribe does what it is for exactly when the list is empty or has the path already. */
  lemma SubscribeIsLostExactlyWhen(es: seq<Entry>, e: Entry)
    ensures Subscribed(es, e) == Joined(es, e) <==> es == [] || Holds(es, e.topic)
  {
    if es != [] && !Holds(es, e.topic) {
      assert |Joined(es, e)| == |es| + 1;
    }
  }

  lemma OnlyMatch(es: seq<Entry>, topic: string, k: nat)
    requires es != [] && DistinctPaths(es) && k < |es| && k != Found(es, topic)
    ensures !Matches(es[k], topic)
  {
    FoundExactly(es, topic);
    hide Path, Found, FirstMatch;
  }

  /** unsubscribe removes the entry asked for when there is one, and otherwise the last. Either
      way nothing else goes, the order stays, and no entry has the path afterwards. */
  lemma UnsubscribeRemoves(es: seq<Entry>, topic: string)
    requires es != [] && DistinctPaths(es)
    ensures !Holds(Unsubscribed(es, topic), topic)
    ensures !Holds(es, topic) ==> Unsubscribed(es, topic) == es[..|es| - 1]
    ensures var k := FirstMatch(es, topic);
      Holds(es, topic) ==> k < |es| && Unsubscribed(es, topic) == es[..k] + es[k + 1..]
  {
    FoundExactly(es, topic);
    hide Path, Found, FirstMatch, DistinctPaths, Matches;
    NoneMatchesAfterwards(es, topic);
  }

  lemma NoneMatchesAfterwards(es: seq<Entry>, topic: string)
    requires es != [] && DistinctPaths(es)
    ensures !Holds(Without(es, Found(es, topic)), topic)
  {
    hide Path, Found, DistinctPaths, Matches;
    var f := Found(es, topic);
    WithoutAt(es, f);
    forall k | 0 <= k < |es| - 1 ensures !Matches(Without(es, f)[k], topic) {
      OnlyMatch(es, topic, if k < f then k else k + 1);
    }
  }

  /** The comparisons of the loop stay inside their buffers. */
  predicate LoopInside(es: seq<Entry>, topic: string)
    requires es != []
  {
    |es| == 1 || ('/' in es[0].topic && (Matches(es[0], topic) || LoopInside(es[1..], topic)))
  }

  /** All comparisons of findSubscriptionByTopic do. */
  predicate Inside(es: seq<Entry>, topic: string) {
    es == [] || ('/' in topic && '/' in es[0].topic && LoopInside(es, topic))
  }

  /** Entry `k` is compared with the topic: the first is, and then each but the last, up to a match. */
  predicate Compared(es: seq<Entry>, topic: string, k: nat) {
    k < |es| && (k == 0 || k < |es| - 1) && k <= FirstMatch(es, topic)
  }

  /** A lookup stays inside exactly when the topic and every entry compared with it have a '/'. */
  lemma InsideExactly(es: seq<Entry>, topic: string)
    requires es != []
    ensures Inside(es, topic) <==> '/' in topic && forall k: nat :: Compared(es, topic, k) ==> '/' in es[k].topic
  {
    LoopInsideExactly(es, topic);
    assert Compared(es, topic, 0);
    assert forall k: nat :: Compared(es, topic, k) ==> k == 0 || (k < |es| - 1 && k <= FirstMatch(es, topic));
  }

  lemma {:induction false} LoopInsideExactly(es: seq<Entry>, topic: string)
    requires es != []
    ensures LoopInside(es, topic) <==>
      forall k :: 0 <= k < |es| - 1 && k <= FirstMatch(es, topic) ==> '/' in es[k].topic
  {
    if |es| > 1 && !Matches(es[0], topic) {
      var rest := es[1..];
      LoopInsideExactly(rest, topic);
      assert FirstMatch(es, topic) == 1 + FirstMatch(rest, topic);
      assert forall k :: 0 <= k < |rest| ==> rest[k] == es[k + 1];
      if LoopInside(es, topic) {
        forall k | 0 <= k < |es| - 1 && k <= FirstMatch(es, topic) ensures '/' in es[k].topic {
          if k > 0 {
            assert rest[k - 1] == es[k];
          }
        }
      } else if '/' in es[0].topic {
        var k :| 0 <= k < |rest| - 1 && k <= FirstMatch(rest, topic) && '/' !in rest[k].topic;
        assert '/' !in es[k + 1].topic;
      }
    }
  }

  /** With a '/' in every topic they do. */
  lemma {:induction false} SlashesKeepInside(es: seq<Entry>, topic: string)
    requires '/' in topic && forall k :: 0 <= k < |es| ==> '/' in es[k].topic
    ensures Inside(es, topic)
  {
    if |es| > 1 {
      SlashesKeepInside(es[1..], topic);
    }
  }

  /** A topic without '/' is taken into an empty list without a look, and no lookup after that
      stays inside. */
  lemma OneLevelTopicSpoilsLookups(e: Entry, topic: string)
    requires '/' !in e.topic
    ensures Inside([], e.topic) && Subscribed([], e) == [e] && !Inside([e], topic)
  {
  }

  /** unsubscribe asks the modem to give up the path it was called with exactly when somebody has
      subscribed to it; otherwise it asks for the last entry's. */
  lemma UnsubscribeAsksForThePath(es: seq<Entry>, topic: string)
    requires es != []
    ensures var asked := UnsubscribeRequest(es, topic);
      && |asked| == 1 && (Path(asked[0].topic) == Path(topic) <==> Holds(es, topic))
      && (Holds(es, topic) ==> var e := es[FirstMatch(es, topic)]; asked == [AskUnsubscribe(e.topic, e.msgId)])
      && (!Holds(es, topic) ==> asked[0].topic == es[|es| - 1].topic)
  {
    FoundExactly(es, topic);
    hide Path, Found, FirstMatch;
  }

  // ---- the task ----

  /** What recv hands the task: nothing, or a message whose topic or text may be NULL. */
  datatype Incoming = Nothing | Message(topic: Option<string>, text: Option<string>)

  /** A handler run: which one, for which topic, with what text. */
  datatype Run = Run(handler: nat, topic: string, text: string)

  /** What the task does with one incoming item. */
  function Delivered(es: seq<Entry>, m: Incoming): seq<Run> {
    if m.Nothing? || m.text.None? || m.topic.None? || es == [] then []
    else
      match es[Found(es, m.topic.value)].handler
      case Some(h) => [Run(h, m.topic.value, m.text.value)]
      case None => []
  }

  function AllDelivered(es: seq<Entry>, ms: seq<Incoming>): seq<Run> {
    if ms == [] then [] else AllDelivered(es, ms[..|ms| - 1]) + Delivered(es, ms[|ms| - 1])
  }

  /** The lookups the task makes stay inside. */
  predicate Safe(es: seq<Entry>, m: Incoming) {
    m.Message? && m.text.Some? && m.topic.Some? ==> Inside(es, m.topic.value)
  }

  ghost predicate AllSafe(es: seq<Entry>, ms: seq<Incoming>) {
    forall k :: 0 <= k < |ms| ==> Safe(es, ms[k])
  }

  /** The topic's rewriting on reception does not change which subscription is found. */
  lemma {:induction false} FoundByRewritten(es: seq<Entry>, t: string)
    requires es != [] && IsTopic(t)
    ensures Found(es, Rewritten(t)) == Found(es, t)
  {
    RewritingKeepsThePath(t);
    if |es| > 1 && !Matches(es[0], t) {
      FoundByRewritten(es[1..], t);
    }
  }

  /** A message for a path subscribed to, received with its topic rewritten, runs that one
      subscription's handler and no other. */
  lemma MessageReachesItsHandler(es: seq<Entry>, k: nat, t: string, text: string)
    requires DistinctPaths(es) && k < |es| && IsTopic(t) && Matches(es[k], t)
    ensures Delivered(es, Message(Some(Rewritten(t)), Some(text))) ==
      if es[k].handler.Some? then [Run(es[k].handler.value, Rewritten(t), text)] else []
  {
    FoundByRewritten(es, t);
    FoundExactly(es, t);
  }

  /** With nobody subscribed to its path it runs the last subscription's handler all the same:
      the right handler runs exactly when some subscription has the path. */
  lemma {:induction false} StrayMessageRunsTheLastHandler(es: seq<Entry>, t: string, text: string)
    requires es != [] && IsTopic(t)
    ensures Matches(es[Found(es, Rewritten(t))], t) <==> Holds(es, t)
    ensures !Holds(es, t) && es[|es| - 1].handler.Some? ==>
      Delivered(es, Message(Some(Rewritten(t)), Some(text))) == [Run(es[|es| - 1].handler.value, Rewritten(t), text)]
  {
    FoundByRewritten(es, t);
    FoundExactly(es, t);
  }

  // ---- the task over a sequence of messages ----

  /** The task handles each message by itself, in order. */
  lemma {:induction false} DeliveredOneByOne(es: seq<Entry>, a: seq<Incoming>, b: seq<Incoming>)
    ensures AllDelivered(es, a + b) == AllDelivered(es, a) + AllDelivered(es, b)
  {
    if b == [] {
      assert a + b == a;
    } else {
      assert (a + b)[..|a + b| - 1] == a + b[..|b| - 1];
      DeliveredOneByOne(es, a, b[..|b| - 1]);
    }
  }

  lemma DeliveredAlone(es: seq<Entry>, m: Incoming)
    ensures AllDelivered(es, [m]) == Delivered(es, m)
  {
    assert [m][..0] == [];
  }

  /** A message with a topic and a text. */
  predicate Complete(m: Incoming) {
    m.Message? && m.topic.Some? && m.text.Some?
  }

  function Completes(ms: seq<Incoming>): seq<Incoming> {
    if ms == [] then []
    else Completes(ms[..|ms| - 1]) + if Complete(ms[|ms| - 1]) then [ms[|ms| - 1]] else []
  }

  /** Nothing comes of anything else. */
  lemma {:induction false} OnlyCompletesCount(es: seq<Entry>, ms: seq<Incoming>)
    ensures AllDelivered(es, ms) == AllDelivered(es, Completes(ms))
  {
    if ms != [] {
      var front, m := ms[..|ms| - 1], ms[|ms| - 1];
      OnlyCompletesCount(es, front);
      if Complete(m) {
        DeliveredOneByOne(es, Completes(front), [m]);
        DeliveredAlone(es, m);
      } else {
        assert Completes(ms) == Completes(front);
        assert Delivered(es, m) == [];
      }
    }
  }

  /** Some subscription has the path, and a handler. */
  ghost predicate Handled(es: seq<Entry>, t: string) {
    exists j :: 0 <= j < |es| && Matches(es[j], t) && es[j].handler.Some?
  }

  /** The messages as they are received: topics rewritten. */
  function AsReceived(ts: seq<string>, texts: seq<string>): seq<Incoming>
    requires |ts| == |texts|
  {
    if ts == [] then []
    else
      var n := |ts| - 1;
      AsReceived(ts[..n], texts[..n]) + [Message(Some(Rewritten(ts[n])), Some(texts[n]))]
  }

  /** The run of the handler of `t`'s path. */
  ghost predicate RightRun(es: seq<Entry>, t: string, text: string, r: Run) {
    && r.topic == Rewritten(t) && r.text == text
    && exists j :: 0 <= j < |es| && Matches(es[j], t) && es[j].handler == Some(r.handler)
  }

  ghost predicate RightRuns(es: seq<Entry>, ts: seq<string>, texts: seq<string>, runs: seq<Run>)
    requires |ts| == |texts|
  {
    |runs| == |ts| && forall k :: 0 <= k < |ts| ==> RightRun(es, ts[k], texts[k], runs[k])
  }

  lemma OneMoreRightRun(es: seq<Entry>, ts: seq<string>, texts: seq<string>, runs: seq<Run>, r: Run)
    requires |ts| == |texts| > 0
    requires var n := |ts| - 1; RightRuns(es, ts[..n], texts[..n], runs) && RightRun(es, ts[n], texts[n], r)
    ensures RightRuns(es, ts, texts, runs + [r])
  {
    hide RightRun;
    var n := |ts| - 1;
    forall k | 0 <= k < |ts| ensures RightRun(es, ts[k], texts[k], (runs + [r])[k]) {
      if k < n {
        assert ts[..n][k] == ts[k] && texts[..n][k] == texts[k];
      }
    }
  }

  lemma OneRightRun(es: seq<Entry>, t: string, text: string) returns (r: Run)
    requires DistinctPaths(es) && IsTopic(t) && Handled(es, t)
    ensures AllDelivered(es, [Message(Some(Rewritten(t)), Some(text))]) == [r] && RightRun(es, t, text, r)
  {
    var j :| 0 <= j < |es| && Matches(es[j], t) && es[j].handler.Some?;
    MessageReachesItsHandler(es, j, t, text);
    hide Delivered, DistinctPaths, Matches, AllDelivered, IsTopic;
    DeliveredAlone(es, Message(Some(Rewritten(t)), Some(text)));
    r := Run(es[j].handler.value, Rewritten(t), text);
  }

  /**
   Every message reaches its handler. With distinct paths, all subscribed with handlers, a
   sequence of messages runs one handler each, in order, the one of the message's path.
   */
  lemma {:induction false} EveryMessageReachesItsHandler(es: seq<Entry>, ts: seq<string>, texts: seq<string>)
    requires DistinctPaths(es) && |ts| == |texts|
    requires forall k :: 0 <= k < |ts| ==> IsTopic(ts[k]) && Handled(es, ts[k])
    ensures RightRuns(es, ts, texts, AllDelivered(es, AsReceived(ts, texts)))
  {
    hide DistinctPaths, Handled, RightRun, IsTopic, Rewritten, AllDelivered;
    if ts == [] {
      NothingDelivered(es);
    } else {
      var n := |ts| - 1;
      EveryMessageReachesItsHandler(es, ts[..n], texts[..n]);
      DeliveredOneByOne(es, AsReceived(ts[..n], texts[..n]), [Message(Some(Rewritten(ts[n])), Some(texts[n]))]);
      var r := OneRightRun(es, ts[n], texts[n]);
      OneMoreRightRun(es, ts, texts, AllDelivered(es, AsReceived(ts[..n], texts[..n])), r);
    }
  }

  lemma NothingDelivered(es: seq<Entry>)
    ensures AllDelivered(es, []) == []
  {
  }

  // ---- the linked list ----

  class MQTTSubscription {
    var msgId: int
    var qos: int
    var topic: string
    var handler: Option<nat>
    var next: MQTTSubscription?

    /** malloc leaves `next` as it finds it. */
    constructor (msgId: int, qos: int, topic: string, handler: Option<nat>, garbage: MQTTSubscription?)
      ensures this.msgId == msgId && this.qos == qos && this.topic == topic && this.handler == handler
      ensures next == garbage
    {
      this.msgId := msgId;
      this.qos := qos;
      this.topic := topic;
      this.handler := handler;
      this.next := garbage;
    }
  }

  ghost function EntryOf(n: MQTTSubscription): Entry
    reads n
  {
    Entry(n.topic, n.handler, n.qos, n.msgId)
  }

  ghost function Entries(ns: seq<MQTTSubscription>): (es: seq<Entry>)
    reads ns
    ensures |es| == |ns| && forall k :: 0 <= k < |ns| ==> es[k] == EntryOf(ns[k])
  {
    if ns == [] then [] else Entries(ns[..|ns| - 1]) + [EntryOf(ns[|ns| - 1])]
  }

  /** The node after number `k`. */
  function After(ns: seq<MQTTSubscription>, k: nat): MQTTSubscription?
    requires k < |ns|
  {
    if k + 1 < |ns| then ns[k + 1] else null
  }

  /** `ns` are the nodes reached from `first`, each once, and then NULL. */
  ghost predicate Chain(first: MQTTSubscription?, ns: seq<MQTTSubscription>)
    reads ns
  {
    && first == (if ns == [] then null else ns[0])
    && (forall k :: 0 <= k < |ns| ==> ns[k].next == After(ns, k))
    && (forall j, k :: 0 <= j < k < |ns| ==> ns[j] != ns[k])
  }

  class BG96MQTTClient {
    var sublist: MQTTSubscription?
    var nmid: int
    var asked: seq<Request>      // of the modem, in order
    ghost var nodes: seq<MQTTSubscription>

    ghost predicate Valid()
      reads this, nodes
    {
      Chain(sublist, nodes) && forall k :: 0 <= k < |nodes| ==> NUL !in nodes[k].topic
    }

    constructor ()
      ensures Valid() && nodes == [] && nmid == 1 && asked == []
    {
      asked := [];
      sublist := null;
      nmid := 1;
      nodes := [];
    }

    /** The application may hang in a list it built elsewhere. */
    method SetSubscriptions(first: MQTTSubscription?, ghost ns: seq<MQTTSubscription>)
      requires Chain(first, ns) && forall k :: 0 <= k < |ns| ==> NUL !in ns[k].topic
      modifies this
      ensures Valid() && nodes == ns && nmid == old(nmid) && asked == old(asked)
    {
      sublist := first;
      nodes := ns;
    }

    method GetNextMessageId() returns (id: int)
      modifies this`nmid
      ensures id == old(nmid) && nmid == old(nmid) + 1
    {
      id := nmid;
      nmid := nmid + 1;
    }

    /** `inside` is false if a comparison has left its buffer. */
    method FindSubscriptionByTopic(topic: string) returns (r: MQTTSubscription?, inside: bool)
      requires Valid() && NUL !in topic
      ensures inside <==> Inside(Entries(nodes), topic)
      ensures inside ==> r == if nodes == [] then null else nodes[Found(Entries(nodes), topic)]
    {
      hide Path, Entries;
      r, inside := sublist, true;
      if r != null {
        ghost var es := Entries(nodes);
        var first := MatchTopic(r.topic, topic);
        if first.None? {
          return null, false;
        }
        if first.value {
          return;
        }
        ghost var k := 0;
        while r.next != null
          invariant 0 <= k < |nodes| && r == nodes[k]
          invariant Found(es, topic) == k + Found(es[k..], topic)
          invariant LoopInside(es, topic) <==> LoopInside(es[k..], topic)
          decreases |nodes| - k
        {
          assert nodes[k].next == After(nodes, k);
          var rc := MatchTopic(r.topic, topic);
          if rc.None? {
            return null, false;
          }
          if rc.value {
            break;
          }
          assert es[k..][1..] == es[k + 1..];
          r := r.next;
          k := k + 1;
        }
        assert nodes[k].next == After(nodes, k);
      }
    }

    /** The walk of append_subscription. */
    method Last() returns (it: MQTTSubscription)
      requires Valid() && sublist != null
      ensures it == nodes[|nodes| - 1]
    {
      it := sublist;
      ghost var k := 0;
      while it.next != null
        invariant 0 <= k < |nodes| && it == nodes[k]
        decreases |nodes| - k
      {
        assert nodes[k].next == After(nodes, k);
        it := it.next;
        k := k + 1;
      }
      assert nodes[k].next == After(nodes, k);
    }

    /** The list is not empty. */
    method Link(sub: MQTTSubscription, ghost last: MQTTSubscription)
      requires Valid() && nodes != [] && last == nodes[|nodes| - 1]
      modifies last`next
      ensures last.next == sub
      ensures forall i :: 0 <= i < |nodes| - 1 ==> nodes[i].next == After(nodes, i)
      ensures forall n :: n in nodes ==> EntryOf(n) == old(EntryOf(n))
    {
      var it := Last();
      it.next := sub;
    }

    method AppendSubscription(sub: MQTTSubscription?) returns (ok: bool)
      requires Valid() && (sub != null ==> sub !in nodes && NUL !in sub.topic)
      modifies this`sublist, this`nodes, if nodes == [] then {} else {nodes[|nodes| - 1]}
      ensures ok <==> sub != null
      ensures nodes == old(nodes) + (if sub == null then [] else [sub])
      ensures sub == null || sub.next == null <==> Valid()
      ensures sub != null && old(nodes) == [] ==> sublist == sub
      ensures forall n :: n in old(nodes) ==> EntryOf(n) == old(EntryOf(n))
    {
      hide EntryOf;
      if sub == null {
        return false;
      }
      ghost var ns := nodes;
      if sublist == null {
        sublist := sub;
      } else {
        Link(sub, nodes[|nodes| - 1]);
      }
      nodes := nodes + [sub];
      hide Chain;
      Lengthened(ns, sub);
      return true;
    }

    /** A last node linked in, and added to the sequence. */
    lemma Lengthened(ns: seq<MQTTSubscription>, sub: MQTTSubscription)
      requires nodes == ns + [sub] && sub !in ns
      requires forall i, j :: 0 <= i < j < |ns| ==> ns[i] != ns[j]
      requires forall i :: 0 <= i < |ns| - 1 ==> ns[i].next == After(ns, i)
      requires ns != [] ==> ns[|ns| - 1].next == sub
      requires sublist == if ns != [] then ns[0] else sub
      requires NUL !in sub.topic && forall i :: 0 <= i < |ns| ==> NUL !in ns[i].topic
      ensures Valid() <==> sub.next == null
    {
      assert forall i :: 0 <= i < |ns| ==> nodes[i] == ns[i];
      assert nodes[|ns|] == sub && After(nodes, |ns|) == null;
    }

    /** The walk of remove_subscription. */
    method Before(sub: MQTTSubscription, ghost k: nat) returns (it: MQTTSubscription)
      requires Valid() && 0 < k < |nodes| && sub == nodes[k]
      ensures it == nodes[k - 1]
    {
      it := sublist;
      ghost var j := 0;
      while it.next != sub
        invariant 0 <= j < k && it == nodes[j]
        decreases k - j
      {
        assert nodes[j].next == After(nodes, j);
        it := it.next;
        j := j + 1;
      }
      assert nodes[j].next == After(nodes, j);
    }

    /** The node is not the first. */
    method Unlink(sub: MQTTSubscription, ghost k: nat, ghost front: MQTTSubscription)
      requires Valid() && 0 < k < |nodes| && sub == nodes[k] && front == nodes[k - 1]
      modifies front`next, sub`next
      ensures front.next == After(nodes, k)
      ensures forall i :: 0 <= i < |nodes| && i != k && i + 1 != k ==> nodes[i].next == old(nodes[i].next)
    {
      var it := Before(sub, k);
      assert nodes[k].next == After(nodes, k);
      if sub.next != null {
        it.next := sub.next;
        sub.next := null;
      } else {
        it.next := null;
      }
    }

    method RemoveSubscription(sub: MQTTSubscription?, ghost k: nat) returns (ok: bool)
      requires Valid() && (sub != null && nodes != [] ==> k < |nodes| && nodes[k] == sub)
      modifies this`sublist, this`nodes, nodes
      ensures ok && Valid()
      ensures nodes == if sub == null || old(nodes) == [] then old(nodes) else Without(old(nodes), k)
      ensures forall n :: n in old(nodes) ==> EntryOf(n) == old(EntryOf(n))
    {
      hide Without;
      ok := true;
      if sub == null || sublist == null {
        return;
      }
      assert nodes[k].next == After(nodes, k) && nodes[0] == sublist;
      ghost var ns := nodes;
      if sublist == sub {
        if sublist.next != null {
          sublist := sublist.next;
        } else {
          sublist := null;
        }
      } else {
        Unlink(sub, k, nodes[k - 1]);
      }
      nodes := Without(nodes, k);
      hide Chain;
      StillChained(ns, k);
    }

    /** Taking a node out of the links and out of the sequence. */
    lemma StillChained(ns: seq<MQTTSubscription>, k: nat)
      requires k < |ns| && nodes == Without(ns, k)
      requires forall i, j :: 0 <= i < j < |ns| ==> ns[i] != ns[j]
      requires forall i :: 0 <= i < |ns| && i != k && i + 1 != k ==> ns[i].next == After(ns, i)
      requires k > 0 ==> ns[k - 1].next == After(ns, k)
      requires sublist == if k > 0 then ns[0] else After(ns, 0)
      requires forall i :: 0 <= i < |ns| ==> NUL !in ns[i].topic
      ensures Valid()
    {
      assert forall i :: 0 <= i < |nodes| ==> nodes[i] == ns[if i < k then i else i + 1];
      forall i | 0 <= i < |nodes| ensures nodes[i].next == After(nodes, i) {
        assert ns[if i < k then i else i + 1] == nodes[i];
      }
    }

    /** subscribe; `garbage` is what malloc left in the node, `reply` what the modem answers. */
    method Subscribe(topic: string, qos: int, handler: Option<nat>, garbage: MQTTSubscription?, reply: int)
      returns (rc: int, inside: bool)
      requires Valid() && NUL !in topic
      modifies this
      ensures nmid == old(nmid) + 1
      ensures inside <==> Inside(old(Entries(nodes)), topic)
      ensures Valid() <==> old(nodes) != [] || garbage == null
      ensures old(nodes) == [] ==> |nodes| == 1 && nodes[0] == sublist && nodes[0].next == garbage
      ensures Entries(nodes) == Subscribed(old(Entries(nodes)), Entry(topic, handler, qos, old(nmid)))
      ensures asked == old(asked) + if old(nodes) == [] then [AskSubscribe(topic, qos, old(nmid))] else []
      ensures old(nodes) != [] ==> nodes == old(nodes) && (inside ==> rc == 0)
      ensures old(nodes) == [] ==> rc == reply && fresh(nodes[0])
    {
      hide Found, Entries, Chain, EntryOf, LoopInside, Path;
      var id := GetNextMessageId();
      var sub := new MQTTSubscription(id, qos, topic, handler, garbage);
      var found;
      found, inside := FindSubscriptionByTopic(topic);
      if !inside {
        return -1, false;
      }
      if found == null {
        var ok := AppendSubscription(sub);
        OneEntry(sub);
        asked := asked + [AskSubscribe(sub.topic, sub.qos, sub.msgId)];
        rc := reply;
      } else {
        rc := 0;
      }
    }

    lemma OneEntry(n: MQTTSubscription)
      ensures Entries([n]) == [Entry(n.topic, n.handler, n.qos, n.msgId)] && Entries([]) == []
    {
    }

    method Unsubscribe(topic: string, reply: int) returns (rc: int, inside: bool)
      requires Valid() && NUL !in topic
      modifies this`sublist, this`nodes, this`asked, nodes
      ensures inside <==> Inside(old(Entries(nodes)), topic)
      ensures Valid()
      ensures Entries(nodes) == if inside then Unsubscribed(old(Entries(nodes)), topic) else old(Entries(nodes))
      ensures inside ==> rc == if old(nodes) == [] then -1000 else reply
      ensures asked == old(asked) + if inside then UnsubscribeRequest(old(Entries(nodes)), topic) else []
    {
      hide Path, Found, Entries, Without, Chain;
      var sub;
      sub, inside := FindSubscriptionByTopic(topic);
      if !inside {
        return -1, false;
      }
      if sub == null {
        return -1000, true;
      }
      ghost var es, f := Entries(nodes), Found(Entries(nodes), topic);
      var ok := RemoveSubscription(sub, f);
      EntriesWithout(old(nodes), es, f);
      asked := asked + [AskUnsubscribe(sub.topic, sub.msgId)];
      rc := reply;
    }

    lemma EntriesWithout(ns: seq<MQTTSubscription>, es: seq<Entry>, f: nat)
      requires f < |ns| == |es| && forall k :: 0 <= k < |ns| ==> es[k] == EntryOf(ns[k])
      ensures Entries(Without(ns, f)) == Without(es, f)
    {
      WithoutAt(ns, f);
      WithoutAt(es, f);
    }

    /** mqtt_task until stopRunning, over what recv returns meanwhile. */
    method MqttTask(incoming: seq<Incoming>) returns (runs: seq<Run>, inside: bool)
      requires Valid()
      requires forall k :: 0 <= k < |incoming| && incoming[k].Message? && incoming[k].topic.Some? ==>
        NUL !in incoming[k].topic.value
      ensures inside <==> AllSafe(Entries(nodes), incoming)
      ensures inside ==> runs == AllDelivered(Entries(nodes), incoming)
    {
      hide Path, Entries, Found, Chain, Inside;
      runs := [];
      for i := 0 to |incoming|
        invariant runs == AllDelivered(Entries(nodes), incoming[..i])
        invariant forall k :: 0 <= k < i ==> Safe(Entries(nodes), incoming[k])
      {
        var m := incoming[i];
        assert incoming[..i + 1][..i] == incoming[..i];
        if m.Message? && m.text.Some? && m.topic.Some? {
          var sub, found := FindSubscriptionByTopic(m.topic.value);
          if !found {
            assert !Safe(Entries(nodes), incoming[i]);
            return runs, false;
          }
          if sub != null && sub.handler.Some? {
            runs := runs + [Run(sub.handler.value, m.topic.value, m.text.value)];
          }
        }
      }
      assert incoming[..|incoming|] == incoming;
      inside := true;
    }
  }
}
