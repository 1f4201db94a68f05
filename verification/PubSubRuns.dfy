// The Pub/Sub backend over whole runs, against a log per subscription.
//
// The log of a subscription lists every message accepted since it was created. Messages are
// only appended to it; each is first queued and then, at most once, delivered by a pull or
// acknowledged while still queued. The runs below carry such logs beside the backend, together
// with what the pulls of each subscription returned.
module PubSubRuns {
  import opened Wrappers
  import opened Strings
  import opened PubSub

  datatype Fate = Queued | Delivered | Acked

  datatype Entry = Entry(message: Pending, fate: Fate)

  datatype History = History(
    log: map<string, seq<Entry>>,
    pulled: map<string, seq<Pending>>,   // what pulls returned since the subscription was created
    returned: set<(nat, string)>)        // (message number, subscription) of everything ever returned

  /** The messages with the given fate, in log order. */
  function Select(log: seq<Entry>, fate: Fate): seq<Pending>
  {
    if log == [] then [] else (if log[0].fate == fate then [log[0].message] else []) + Select(log[1..], fate)
  }

  /** The accepted messages except those acknowledged while they were queued. */
  function Unacked(log: seq<Entry>): seq<Pending>
  {
    if log == [] then [] else (if log[0].fate == Acked then [] else [log[0].message]) + Unacked(log[1..])
  }

  /** A pull delivers the first `n` queued messages. */
  function MarkDelivered(log: seq<Entry>, n: nat): seq<Entry>
  {
    if log == [] || n == 0 then log
    else if log[0].fate == Queued then [log[0].(fate := Delivered)] + MarkDelivered(log[1..], n - 1)
    else [log[0]] + MarkDelivered(log[1..], n)
  }

  /** An acknowledgement affects the messages that are still queued, and no others. */
  function MarkAcked(log: seq<Entry>, ids: set<string>): seq<Entry>
  {
    if log == [] then []
    else [if log[0].fate == Queued && log[0].message.ackID in ids then log[0].(fate := Acked) else log[0]]
         + MarkAcked(log[1..], ids)
  }

  /** Publishing appends the message to each log of the topic that has fewer than the maximum queued. */
  function LogMessage(log: map<string, seq<Entry>>, subs: map<string, Subscription>, topic: string,
                      num: nat, m: Message, now: int): map<string, seq<Entry>>
  {
    map s | s in log ::
      if s in subs && subs[s].topic == topic && |Select(log[s], Queued)| < MAX_MESSAGES_PER_SUBSCRIPTION
      then log[s] + [Entry(Deliverable(num, s, m, now), Queued)]
      else log[s]
  }

  function LogMessages(log: map<string, seq<Entry>>, subs: map<string, Subscription>, topic: string,
                       lastID: nat, messages: seq<Message>, now: int): map<string, seq<Entry>>
  {
    if messages == [] then log
    else
      var n := |messages| - 1;
      LogMessage(LogMessages(log, subs, topic, lastID, messages[..n], now), subs, topic,
                 lastID + n + 1, messages[n], now)
  }

  function Forget(h: History, subs: set<string>): History
  {
    h.(log := h.log - subs, pulled := h.pulled - subs)
  }

  function LogPull(h: History, name: string, limit: nat, messages: seq<Pending>): History
    requires name in h.log && name in h.pulled
  {
    History(h.log[name := MarkDelivered(h.log[name], limit)],
            h.pulled[name := h.pulled[name] + messages],
            h.returned + set p | p in messages :: (p.num, name))
  }

  function LogAcknowledge(h: History, name: string, ids: set<string>): History
    requires name in h.log
  {
    h.(log := h.log[name := MarkAcked(h.log[name], ids)])
  }

  ghost predicate SameSubscriptions(b: Backend, h: History)
  {
    Valid(b) && h.log.Keys == h.pulled.Keys == b.queues.Keys
  }

  /** The history after a successful request, from the request and its response. */
  function Observe(h: History, b: Backend, r: Request, response: Response): History
    requires SameSubscriptions(b, h) && Handle(b, r).1 == response
  {
    if response.Failed? then h else
      match r
      case CreateTopic(_, _, _) => h
      case DeleteTopic(project, topic) => Forget(h, SubscriptionsOf(b, TopicFullName(project, topic)))
      case CreateSubscription(project, sub, _) =>
        var name := SubscriptionFullName(project, sub);
        h.(log := h.log[name := []], pulled := h.pulled[name := []])
      case DeleteSubscription(project, sub) => Forget(h, {SubscriptionFullName(project, sub)})
      case Publish(project, topic, messages, now) =>
        h.(log := LogMessages(h.log, b.subscriptions, TopicFullName(project, topic), b.lastID, messages.value, now))
      case Pull(project, sub, maxMessages) =>
        LogPull(h, SubscriptionFullName(project, sub), PullLimit(maxMessages.value).value, response.messages)
      case Acknowledge(project, sub, ackIDs) =>
        LogAcknowledge(h, SubscriptionFullName(project, sub), set id | id in ackIDs.value)
  }

  // ---------------------------------------------------------------- the logs

  /** No message is delivered while an older one is still queued. */
  predicate DeliveredFirst(log: seq<Entry>)
  {
    log == [] || ((log[0].fate == Queued ==> Select(log[1..], Delivered) == []) && DeliveredFirst(log[1..]))
  }

  /** Message numbers increase along the log and stay within the counter. */
  ghost predicate Numbered(log: seq<Entry>, lastID: nat)
  {
    && (forall i :: 0 <= i < |log| ==> log[i].message.num <= lastID)
    && (forall i, j :: 0 <= i < j < |log| ==> log[i].message.num < log[j].message.num)
  }

  lemma {:induction false} SelectAppend(log: seq<Entry>, e: Entry, fate: Fate)
    ensures Select(log + [e], fate) == Select(log, fate) + if e.fate == fate then [e.message] else []
  {
    if log == [] {
      assert (log + [e])[1..] == [];
    } else {
      var first := if log[0].fate == fate then [log[0].message] else [];
      var last := if e.fate == fate then [e.message] else [];
      assert (log + [e])[0] == log[0] && (log + [e])[1..] == log[1..] + [e];
      SelectAppend(log[1..], e, fate);
      assert first + (Select(log[1..], fate) + last) == first + Select(log[1..], fate) + last;
    }
  }

  lemma {:induction false} AppendKeepsOrder(log: seq<Entry>, p: Pending)
    requires DeliveredFirst(log)
    ensures DeliveredFirst(log + [Entry(p, Queued)])
  {
    if log == [] {
      assert (log + [Entry(p, Queued)])[1..] == [];
    } else {
      assert (log + [Entry(p, Queued)])[1..] == log[1..] + [Entry(p, Queued)];
      AppendKeepsOrder(log[1..], p);
      SelectAppend(log[1..], Entry(p, Queued), Delivered);
    }
  }

  /** A pull moves the front of the queue to the end of the delivered messages. */
  lemma {:induction false} PullMarksPrefix(log: seq<Entry>, n: nat) returns (taken: seq<Pending>)
    requires DeliveredFirst(log)
    ensures var after := MarkDelivered(log, n);
            && Select(log, Queued) == taken + Select(after, Queued)
            && Select(after, Delivered) == Select(log, Delivered) + taken
            && DeliveredFirst(after)
            && |taken| == AtMost(n, Select(log, Queued))
  {
    hide Select, MarkDelivered, DeliveredFirst;
    if log == [] || n == 0 {
      PullMarksNothing(log, n);
      taken := [];
    } else {
      var first, rest := log[0], log[1..];
      assert log == [first] + rest;
      if first.fate == Queued {
        PullMarksQueued(first, rest, n);
        var others := PullMarksPrefix(rest, n - 1);
        taken := [first.message] + others;
      } else {
        PullSkipsOther(first, rest, n);
        taken := PullMarksPrefix(rest, n);
      }
    }
  }

  lemma PullMarksNothing(log: seq<Entry>, n: nat)
    requires log == [] || n == 0
    ensures MarkDelivered(log, n) == log && AtMost(n, Select(log, Queued)) == 0
  {
  }

  lemma PullMarksQueued(first: Entry, rest: seq<Entry>, n: nat)
    requires first.fate == Queued && n > 0
    ensures var log, after := [first] + rest, MarkDelivered(rest, n - 1);
            && MarkDelivered(log, n) == [first.(fate := Delivered)] + after
            && Select(log, Queued) == [first.message] + Select(rest, Queued)
            && Select(log, Delivered) == Select(rest, Delivered)
            && Select(MarkDelivered(log, n), Queued) == Select(after, Queued)
            && Select(MarkDelivered(log, n), Delivered) == [first.message] + Select(after, Delivered)
            && (DeliveredFirst(log) <==> DeliveredFirst(rest) && Select(rest, Delivered) == [])
            && (DeliveredFirst(MarkDelivered(log, n)) <==> DeliveredFirst(after))
  {
    assert ([first] + rest)[1..] == rest;
    assert ([first.(fate := Delivered)] + MarkDelivered(rest, n - 1))[1..] == MarkDelivered(rest, n - 1);
  }

  lemma PullSkipsOther(first: Entry, rest: seq<Entry>, n: nat)
    requires first.fate != Queued && n > 0
    ensures var log, after := [first] + rest, MarkDelivered(rest, n);
            && MarkDelivered(log, n) == [first] + after
            && Select(log, Queued) == Select(rest, Queued)
            && Select(log, Delivered)
               == (if first.fate == Delivered then [first.message] else []) + Select(rest, Delivered)
            && Select(MarkDelivered(log, n), Queued) == Select(after, Queued)
            && Select(MarkDelivered(log, n), Delivered)
               == (if first.fate == Delivered then [first.message] else []) + Select(after, Delivered)
            && (DeliveredFirst(log) <==> DeliveredFirst(rest))
            && (DeliveredFirst(MarkDelivered(log, n)) <==> DeliveredFirst(after))
  {
    assert ([first] + rest)[1..] == rest;
    assert ([first] + MarkDelivered(rest, n))[1..] == MarkDelivered(rest, n);
  }

  lemma {:induction false} MarksKeepMessages(log: seq<Entry>, n: nat, ids: set<string>)
    ensures |MarkDelivered(log, n)| == |MarkAcked(log, ids)| == |log|
    ensures forall i :: 0 <= i < |log| ==> MarkDelivered(log, n)[i].message == log[i].message
    ensures forall i :: 0 <= i < |log| ==> MarkAcked(log, ids)[i].message == log[i].message
  {
    if log != [] {
      MarksKeepMessages(log[1..], n, ids);
      if log[0].fate == Queued && n > 0 {
        MarksKeepMessages(log[1..], n - 1, ids);
      }
    }
  }

  lemma {:induction false} KeepFront(p: Pending, queue: seq<Pending>, ids: set<string>)
    ensures Keep([p] + queue, ids) == (if p.ackID in ids then [] else [p]) + Keep(queue, ids)
  {
    hide Keep;
    KeepLast([], p, ids);
    KeepNothing(ids);
    if queue == [] {
      assert [p] + queue == [] + [p];
    } else {
      var front, last := queue[..|queue| - 1], queue[|queue| - 1];
      KeepFront(p, front, ids);
      KeepLast(front, last, ids);
      KeepLast([p] + front, last, ids);
      assert queue == front + [last] && [p] + queue == [p] + front + [last];
    }
  }

  lemma KeepNothing(ids: set<string>)
    ensures Keep([], ids) == []
  {
  }

  lemma KeepLast(queue: seq<Pending>, p: Pending, ids: set<string>)
    ensures Keep(queue + [p], ids) == Keep(queue, ids) + if p.ackID in ids then [] else [p]
  {
    assert (queue + [p])[..|queue|] == queue;
  }

  lemma {:induction false} AckRemovesFromQueue(log: seq<Entry>, ids: set<string>)
    requires DeliveredFirst(log)
    ensures var after := MarkAcked(log, ids);
            && Select(after, Queued) == Keep(Select(log, Queued), ids)
            && Select(after, Delivered) == Select(log, Delivered)
            && DeliveredFirst(after)
  {
    if log != [] {
      var rest := MarkAcked(log[1..], ids);
      AckRemovesFromQueue(log[1..], ids);
      var first := if log[0].fate == Queued && log[0].message.ackID in ids then log[0].(fate := Acked) else log[0];
      assert MarkAcked(log, ids) == [first] + rest;
      if log[0].fate == Queued {
        KeepFront(log[0].message, Select(log[1..], Queued), ids);
        assert Select(log, Queued) == [log[0].message] + Select(log[1..], Queued);
      } else {
        assert Select(log, Queued) == Select(log[1..], Queued);
      }
    }
  }

  lemma {:induction false} PulledThenQueued(log: seq<Entry>)
    requires DeliveredFirst(log)
    ensures Select(log, Delivered) + Select(log, Queued) == Unacked(log)
  {
    if log != [] {
      PulledThenQueued(log[1..]);
    }
  }

  lemma {:induction false} SelectedFromLog(log: seq<Entry>, fate: Fate, lastID: nat, p: Pending)
    requires Numbered(log, lastID) && p in Select(log, fate)
    ensures p.num <= lastID
    ensures exists i :: 0 <= i < |log| && log[i].message == p && log[i].fate == fate
  {
    if log[0].fate == fate && p == log[0].message {
    } else {
      SelectedFromLog(log[1..], fate, lastID, p);
      var i :| 0 <= i < |log[1..]| && log[1..][i].message == p && log[1..][i].fate == fate;
      assert log[i + 1].message == p;
    }
  }

  ghost predicate IncreasingNumbers(queue: seq<Pending>)
  {
    forall i, j :: 0 <= i < j < |queue| ==> queue[i].num < queue[j].num
  }

  lemma {:induction false} UnackedFromLog(log: seq<Entry>, p: Pending)
    requires p in Unacked(log)
    ensures exists i :: 0 <= i < |log| && log[i].message == p
  {
    if p == log[0].message {
    } else {
      UnackedFromLog(log[1..], p);
      var i :| 0 <= i < |log[1..]| && log[1..][i].message == p;
      assert log[i + 1].message == p;
    }
  }

  lemma SmallestInFront(p: Pending, queue: seq<Pending>)
    requires IncreasingNumbers(queue) && forall q <- queue :: p.num < q.num
    ensures IncreasingNumbers([p] + queue)
  {
    assert forall j :: 0 <= j < |queue| ==> queue[j] in queue;
  }

  lemma {:induction false} UnackedIsIncreasing(log: seq<Entry>, lastID: nat)
    requires Numbered(log, lastID)
    ensures IncreasingNumbers(Unacked(log))
  {
    hide IncreasingNumbers;
    if log == [] {
      NothingIsIncreasing();
    } else {
      UnackedIsIncreasing(log[1..], lastID);
      forall p | p in Unacked(log[1..])
        ensures log[0].message.num < p.num
      {
        UnackedFromLog(log[1..], p);
      }
      SmallestInFront(log[0].message, Unacked(log[1..]));
      assert log[0].fate == Acked ==> Unacked(log) == Unacked(log[1..]);
    }
  }

  lemma NothingIsIncreasing()
    ensures IncreasingNumbers([])
  {
  }

  // ---------------------------------------------------------------- the invariant of all runs

  ghost predicate SubscriptionInv(queue: seq<Pending>, log: seq<Entry>, pulled: seq<Pending>, lastID: nat)
  {
    && queue == Select(log, Queued)
    && pulled == Select(log, Delivered)
    && DeliveredFirst(log)
    && Numbered(log, lastID)
    && |queue| <= MAX_MESSAGES_PER_SUBSCRIPTION
  }

  ghost predicate NotQueued(b: Backend, num: nat, sub: string)
  {
    num <= b.lastID && (sub in b.queues ==> forall p <- b.queues[sub] :: p.num != num)
  }

  /** Each queue and what was pulled from it are explained by the subscription's log. */
  ghost predicate Explained(b: Backend, h: History)
    requires SameSubscriptions(b, h)
  {
    forall s <- b.queues :: SubscriptionInv(b.queues[s], h.log[s], h.pulled[s], b.lastID)
  }

  /** What a pull returned is in no queue, and never will be again. */
  ghost predicate ReturnedAreGone(b: Backend, h: History)
  {
    forall r <- h.returned :: NotQueued(b, r.0, r.1)
  }

  ghost predicate TopicsExist(b: Backend)
  {
    forall s <- b.subscriptions :: b.subscriptions[s].topic in b.topics
  }

  ghost predicate Inv(b: Backend, h: History)
  {
    SameSubscriptions(b, h) && TopicsExist(b) && Explained(b, h) && ReturnedAreGone(b, h)
  }

  lemma QueueIsTheQueued(queue: seq<Pending>, log: seq<Entry>, pulled: seq<Pending>, lastID: nat)
    requires SubscriptionInv(queue, log, pulled, lastID)
    ensures queue == Select(log, Queued)
  {
  }

  lemma SubscriptionTakesMessage(queue: seq<Pending>, log: seq<Entry>, pulled: seq<Pending>, lastID: nat,
                                 p: Pending)
    requires SubscriptionInv(queue, log, pulled, lastID) && |queue| < MAX_MESSAGES_PER_SUBSCRIPTION
    requires p.num == lastID + 1
    ensures SubscriptionInv(queue + [p], log + [Entry(p, Queued)], pulled, lastID + 1)
  {
    SelectAppend(log, Entry(p, Queued), Queued);
    SelectAppend(log, Entry(p, Queued), Delivered);
    AppendKeepsOrder(log, p);
  }

  lemma SubscriptionIgnoresMessage(queue: seq<Pending>, log: seq<Entry>, pulled: seq<Pending>, lastID: nat)
    requires SubscriptionInv(queue, log, pulled, lastID)
    ensures SubscriptionInv(queue, log, pulled, lastID + 1)
  {
  }

  lemma FanOutKeepsSubscription(b: Backend, h: History, topic: string, m: Message, now: int, s: string)
    requires Inv(b, h) && s in b.queues
    ensures var b' := FanOut(b, topic, m, now);
            var log' := LogMessage(h.log, b.subscriptions, topic, b.lastID + 1, m, now);
            SubscriptionInv(b'.queues[s], log'[s], h.pulled[s], b.lastID + 1)
  {
    hide AckID, SubscriptionInv;
    QueueIsTheQueued(b.queues[s], h.log[s], h.pulled[s], b.lastID);
    if Accepts(b, topic, s) {
      SubscriptionTakesMessage(b.queues[s], h.log[s], h.pulled[s], b.lastID, Deliverable(b.lastID + 1, s, m, now));
    } else {
      SubscriptionIgnoresMessage(b.queues[s], h.log[s], h.pulled[s], b.lastID);
    }
  }

  lemma FanOutKeepsReturned(b: Backend, h: History, topic: string, m: Message, now: int)
    requires Inv(b, h)
    ensures ReturnedAreGone(FanOut(b, topic, m, now), h)
  {
    forall r | r in h.returned
      ensures NotQueued(FanOut(b, topic, m, now), r.0, r.1)
    {
      assert NotQueued(b, r.0, r.1);
    }
  }

  lemma FanOutStaysExplained(b: Backend, h: History, topic: string, m: Message, now: int)
    requires Inv(b, h)
    ensures var h' := h.(log := LogMessage(h.log, b.subscriptions, topic, b.lastID + 1, m, now));
            SameSubscriptions(FanOut(b, topic, m, now), h') && Explained(FanOut(b, topic, m, now), h')
  {
    hide SubscriptionInv;
    forall s | s in b.queues {
      FanOutKeepsSubscription(b, h, topic, m, now, s);
    }
  }

  lemma FanOutKeepsInv(b: Backend, h: History, topic: string, m: Message, now: int)
    requires Inv(b, h)
    ensures Inv(FanOut(b, topic, m, now), h.(log := LogMessage(h.log, b.subscriptions, topic, b.lastID + 1, m, now)))
  {
    hide SubscriptionInv, NotQueued;
    FanOutStaysExplained(b, h, topic, m, now);
    FanOutKeepsReturned(b, h, topic, m, now);
    assert TopicsExist(FanOut(b, topic, m, now));
  }

  lemma {:induction false} PublishKeepsInv(b: Backend, h: History, topic: string, messages: seq<Message>, now: int)
    requires Inv(b, h)
    ensures Inv(PublishAll(b, topic, messages, now),
                h.(log := LogMessages(h.log, b.subscriptions, topic, b.lastID, messages, now)))
  {
    hide Inv, FanOut, LogMessage;
    if messages == [] {
      assert h.(log := h.log) == h;
    } else {
      var n := |messages| - 1;
      var b1 := PublishAll(b, topic, messages[..n], now);
      var log1 := LogMessages(h.log, b.subscriptions, topic, b.lastID, messages[..n], now);
      PublishKeepsInv(b, h, topic, messages[..n], now);
      PublishKeepsKeys(b, topic, messages[..n], now);
      FanOutKeepsInv(b1, h.(log := log1), topic, messages[n], now);
    }
  }

  /** Giving one subscription a smaller queue, with a log that explains it, keeps the invariant. */
  lemma ShrinkingQueueKeepsInv(b: Backend, h: History, name: string, queue: seq<Pending>, log: seq<Entry>,
                               pulled: seq<Pending>, gone: set<(nat, string)>)
    requires Inv(b, h) && name in b.queues
    requires SubscriptionInv(queue, log, pulled, b.lastID)
    requires forall p <- queue :: p in b.queues[name]
    requires forall r <- gone :: r.1 == name && r.0 <= b.lastID && forall p <- queue :: p.num != r.0
    ensures Inv(b.(queues := b.queues[name := queue]),
                h.(log := h.log[name := log], pulled := h.pulled[name := pulled], returned := h.returned + gone))
  {
    hide SubscriptionInv;
    var b' := b.(queues := b.queues[name := queue]);
    forall s <- b'.queues
      ensures SubscriptionInv(b'.queues[s], h.log[name := log][s], h.pulled[name := pulled][s], b'.lastID)
    {
      assert s != name ==> SubscriptionInv(b.queues[s], h.log[s], h.pulled[s], b.lastID);
    }
    forall r <- h.returned + gone
      ensures NotQueued(b', r.0, r.1)
    {
      assert r in h.returned ==> NotQueued(b, r.0, r.1);
    }
  }

  /** The queue is strictly increasing because it is the end of the unacknowledged messages. */
  lemma QueueIsIncreasing(queue: seq<Pending>, log: seq<Entry>, pulled: seq<Pending>, lastID: nat)
    requires SubscriptionInv(queue, log, pulled, lastID)
    ensures IncreasingNumbers(queue)
    ensures forall p <- queue :: p.num <= lastID
  {
    PulledThenQueued(log);
    UnackedIsIncreasing(log, lastID);
    assert queue == Unacked(log)[|pulled|..];
    forall p <- queue
      ensures p.num <= lastID
    {
      SelectedFromLog(log, Queued, lastID, p);
    }
  }

  lemma PulledLog(queue: seq<Pending>, log: seq<Entry>, pulled: seq<Pending>, lastID: nat, limit: nat)
    requires SubscriptionInv(queue, log, pulled, lastID)
    ensures var n := AtMost(limit, queue);
            SubscriptionInv(queue[n..], MarkDelivered(log, limit), pulled + queue[..n], lastID)
  {
    hide Select, DeliveredFirst, MarkDelivered;
    var taken := PullMarksPrefix(log, limit);
    var n := AtMost(limit, queue);
    assert queue[..n] == taken && queue[n..] == Select(MarkDelivered(log, limit), Queued);
    MarksKeepMessages(log, limit, {});
  }

  lemma PulledSubscription(queue: seq<Pending>, log: seq<Entry>, pulled: seq<Pending>, lastID: nat, limit: nat)
    requires SubscriptionInv(queue, log, pulled, lastID)
    ensures var n := AtMost(limit, queue);
            && SubscriptionInv(queue[n..], MarkDelivered(log, limit), pulled + queue[..n], lastID)
            && forall p <- queue[..n] :: p.num <= lastID && forall q <- queue[n..] :: q.num != p.num
  {
    PulledLog(queue, log, pulled, lastID, limit);
    QueueIsIncreasing(queue, log, pulled, lastID);
    hide SubscriptionInv;
    assert forall p <- queue[..AtMost(limit, queue)] :: p in queue;
  }

  lemma PullKeepsInv(b: Backend, h: History, name: string, limit: nat)
    requires Inv(b, h) && name in b.queues
    ensures var n := AtMost(limit, b.queues[name]);
            Inv(b.(queues := b.queues[name := b.queues[name][n..]]), LogPull(h, name, limit, b.queues[name][..n]))
  {
    hide SubscriptionInv, NotQueued, ReturnedAreGone, TopicsExist;
    var queue := b.queues[name];
    var n := AtMost(limit, queue);
    PulledSubscription(queue, h.log[name], h.pulled[name], b.lastID, limit);
    ShrinkingQueueKeepsInv(b, h, name, queue[n..], MarkDelivered(h.log[name], limit), h.pulled[name] + queue[..n],
                           set p | p in queue[..n] :: (p.num, name));
  }

  lemma AcknowledgedSubscription(queue: seq<Pending>, log: seq<Entry>, pulled: seq<Pending>, lastID: nat,
                                 ids: set<string>)
    requires SubscriptionInv(queue, log, pulled, lastID)
    ensures SubscriptionInv(Keep(queue, ids), MarkAcked(log, ids), pulled, lastID)
  {
    AckRemovesFromQueue(log, ids);
    MarksKeepMessages(log, 0, ids);
    KeptMessages(queue, ids);
  }

  lemma AcknowledgeKeepsInv(b: Backend, h: History, name: string, ids: set<string>)
    requires Inv(b, h) && name in b.queues
    ensures Inv(b.(queues := b.queues[name := Keep(b.queues[name], ids)]), LogAcknowledge(h, name, ids))
  {
    hide SubscriptionInv, NotQueued, ReturnedAreGone, TopicsExist;
    var queue, pulled := b.queues[name], h.pulled[name];
    AcknowledgedSubscription(queue, h.log[name], pulled, b.lastID, ids);
    KeptMessages(queue, ids);
    ShrinkingQueueKeepsInv(b, h, name, Keep(queue, ids), MarkAcked(h.log[name], ids), pulled, {});
    assert h.pulled[name := pulled] == h.pulled && h.returned + {} == h.returned;
  }

  lemma {:induction false} KeptMessages(queue: seq<Pending>, ids: set<string>)
    ensures |Keep(queue, ids)| <= |queue|
    ensures forall p :: p in Keep(queue, ids) <==> p in queue && p.ackID !in ids
    ensures (forall p <- queue :: p.ackID !in ids) ==> Keep(queue, ids) == queue
  {
    hide Keep;
    KeepNothing(ids);
    if queue != [] {
      var front, last := queue[..|queue| - 1], queue[|queue| - 1];
      KeptMessages(front, ids);
      KeepLast(front, last, ids);
      assert queue == front + [last];
    }
  }

  lemma DeletionKeepsInv(b: Backend, h: History, subs: set<string>, topics: set<string>)
    requires Inv(b, h) && topics <= b.topics
    requires forall s <- b.subscriptions :: s !in subs ==> b.subscriptions[s].topic in topics
    ensures Inv(Drop(b.(topics := topics), subs), Forget(h, subs))
  {
    var b' := Drop(b.(topics := topics), subs);
    forall q <- h.returned
      ensures NotQueued(b', q.0, q.1)
    {
      assert NotQueued(b, q.0, q.1);
    }
    forall s <- b'.queues
      ensures SubscriptionInv(b'.queues[s], Forget(h, subs).log[s], Forget(h, subs).pulled[s], b'.lastID)
    {
      assert SubscriptionInv(b.queues[s], h.log[s], h.pulled[s], b.lastID);
    }
  }

  lemma FreshSubscription(lastID: nat)
    ensures SubscriptionInv([], [], [], lastID)
  {
  }

  lemma CreationKeepsInv(b: Backend, h: History, name: string, sub: Subscription)
    requires Inv(b, h) && name !in b.subscriptions && sub.topic in b.topics
    ensures Inv(b.(subscriptions := b.subscriptions[name := sub], queues := b.queues[name := []]),
                h.(log := h.log[name := []], pulled := h.pulled[name := []]))
  {
    hide SubscriptionInv;
    var b' := b.(subscriptions := b.subscriptions[name := sub], queues := b.queues[name := []]);
    forall q | q in h.returned
      ensures NotQueued(b', q.0, q.1)
    {
      assert NotQueued(b, q.0, q.1);
    }
    FreshSubscription(b.lastID);
  }

  lemma NewTopicKeepsInv(b: Backend, h: History, name: string)
    requires Inv(b, h)
    ensures Inv(b.(topics := b.topics + {name}), h)
  {
    forall q | q in h.returned
      ensures NotQueued(b.(topics := b.topics + {name}), q.0, q.1)
    {
      assert NotQueued(b, q.0, q.1);
    }
  }

  lemma RequestKeepsInv(b: Backend, h: History, r: Request)
    requires Inv(b, h)
    ensures Inv(Handle(b, r).0, Observe(h, b, r, Handle(b, r).1))
  {
    hide Explained, ReturnedAreGone, TooLarge, ValidResourceName, MessageIDs, TopicFullName, SubscriptionFullName;
    if !Handle(b, r).1.Failed? {
      match r
      case CreateTopic(project, topic, _) => NewTopicKeepsInv(b, h, TopicFullName(project, topic));
      case DeleteTopic(project, topic) =>
        var name := TopicFullName(project, topic);
        DeletionKeepsInv(b, h, SubscriptionsOf(b, name), b.topics - {name});
      case CreateSubscription(project, sub, target) =>
        var name := SubscriptionFullName(project, sub);
        CreationKeepsInv(b, h, name, Handle(b, r).0.subscriptions[name]);
      case DeleteSubscription(project, sub) => DeletionKeepsInv(b, h, {SubscriptionFullName(project, sub)}, b.topics);
      case Publish(project, topic, messages, now) =>
        PublishKeepsInv(b, h, TopicFullName(project, topic), messages.value, now);
      case Pull(project, sub, maxMessages) =>
        PullKeepsInv(b, h, SubscriptionFullName(project, sub), PullLimit(maxMessages.value).value);
      case Acknowledge(project, sub, ackIDs) =>
        AcknowledgeKeepsInv(b, h, SubscriptionFullName(project, sub), set id | id in ackIDs.value);
    }
  }

  // ---------------------------------------------------------------- the log is append-only

  /** Entries stay in place, keep their message, and leave the queue once. */
  ghost predicate Extends(log: seq<Entry>, after: seq<Entry>)
  {
    && |log| <= |after|
    && forall i :: 0 <= i < |log| ==>
         after[i].message == log[i].message && (log[i].fate != Queued ==> after[i].fate == log[i].fate)
  }

  lemma {:induction false} MarksExtend(log: seq<Entry>, n: nat, ids: set<string>)
    ensures Extends(log, MarkDelivered(log, n)) && Extends(log, MarkAcked(log, ids))
  {
    if log != [] {
      MarksExtend(log[1..], n, ids);
      if log[0].fate == Queued && n > 0 {
        MarksExtend(log[1..], n - 1, ids);
      }
    }
  }

  lemma {:induction false} PublishExtends(log: map<string, seq<Entry>>, subs: map<string, Subscription>, topic: string,
                                         lastID: nat, messages: seq<Message>, now: int, s: string)
    requires s in log
    ensures var after := LogMessages(log, subs, topic, lastID, messages, now);
            s in after && Extends(log[s], after[s])
  {
    hide Deliverable, Select;
    if messages != [] {
      PublishExtends(log, subs, topic, lastID, messages[..|messages| - 1], now, s);
    }
  }

  predicate Deletes(b: Backend, r: Request, s: string)
  {
    || (r.DeleteTopic? && s in SubscriptionsOf(b, TopicFullName(r.project, r.topic)))
    || (r.DeleteSubscription? && s == SubscriptionFullName(r.project, r.sub))
  }

  /** No request rewrites the log of a subscription that it does not delete. */
  lemma LogIsAppendOnly(b: Backend, h: History, r: Request, s: string)
    requires Inv(b, h) && s in h.log && !Deletes(b, r, s)
    ensures var h' := Observe(h, b, r, Handle(b, r).1);
            s in h'.log && Extends(h.log[s], h'.log[s])
  {
    hide Explained, ReturnedAreGone, TooLarge, ValidResourceName, MessageIDs, TopicFullName, SubscriptionFullName;
    if !Handle(b, r).1.Failed? {
      match r
      case Publish(project, topic, messages, now) =>
        PublishExtends(h.log, b.subscriptions, TopicFullName(project, topic), b.lastID, messages.value, now, s);
      case Pull(_, _, maxMessages) => MarksExtend(h.log[s], PullLimit(maxMessages.value).value, {});
      case Acknowledge(_, _, ackIDs) => MarksExtend(h.log[s], 0, set id | id in ackIDs.value);
      case _ =>
    }
  }

  // ---------------------------------------------------------------- ackIDs

  ghost predicate OwnAckIDs(b: Backend)
  {
    forall s <- b.queues, p <- b.queues[s] :: p.ackID == AckID(p.num, s)
  }

  lemma {:induction false} PublishKeepsAckIDs(b: Backend, topic: string, messages: seq<Message>, now: int)
    requires OwnAckIDs(b)
    ensures OwnAckIDs(PublishAll(b, topic, messages, now))
  {
    hide AckID, Accepts;
    if messages != [] {
      PublishKeepsAckIDs(b, topic, messages[..|messages| - 1], now);
    }
  }

  lemma RequestKeepsAckIDs(b: Backend, r: Request)
    requires Valid(b) && OwnAckIDs(b)
    ensures OwnAckIDs(Handle(b, r).0)
  {
    hide AckID, TopicFullName, SubscriptionFullName, ValidResourceName, TooLarge, MessageIDs, PublishAll;
    match r
    case Publish(project, topic, messages, now) =>
      if messages.Some? {
        PublishKeepsAckIDs(b, TopicFullName(project, topic), messages.value, now);
      }
    case Acknowledge(project, sub, ackIDs) =>
      var name := SubscriptionFullName(project, sub);
      if ackIDs.Some? && name in b.queues {
        KeptMessages(b.queues[name], set id | id in ackIDs.value);
      }
    case _ =>
  }

  // ---------------------------------------------------------------- whole runs

  ghost function Run(b: Backend, h: History, requests: seq<Request>): (Backend, History)
    requires Inv(b, h)
    decreases |requests|
  {
    if requests == [] then (b, h)
    else
      RequestKeepsInv(b, h, requests[0]);
      Run(Handle(b, requests[0]).0, Observe(h, b, requests[0], Handle(b, requests[0]).1), requests[1..])
  }

  const EMPTY := Backend({}, map[], map[], 0)
  const NO_HISTORY := History(map[], map[], {})

  /** The backend and its history after any sequence of requests to a fresh backend. */
  ghost function After(requests: seq<Request>): (Backend, History)
  {
    Run(EMPTY, NO_HISTORY, requests)
  }

  lemma {:induction false} RunKeepsInv(b: Backend, h: History, requests: seq<Request>)
    requires Inv(b, h)
    ensures var (b', h') := Run(b, h, requests); Inv(b', h') && (OwnAckIDs(b) ==> OwnAckIDs(b'))
    decreases |requests|
  {
    hide Handle, OwnAckIDs, Observe;
    if requests != [] {
      if OwnAckIDs(b) {
        RequestKeepsAckIDs(b, requests[0]);
      }
      RequestKeepsInv(b, h, requests[0]);
      RunKeepsInv(Handle(b, requests[0]).0, Observe(h, b, requests[0], Handle(b, requests[0]).1), requests[1..]);
    }
  }

  lemma ReachableInv(requests: seq<Request>)
    ensures var (b, h) := After(requests); Inv(b, h) && OwnAckIDs(b)
  {
    RunKeepsInv(EMPTY, NO_HISTORY, requests);
  }

  /**
   * Delivery is FIFO and at most once: what was pulled, followed by what is queued, is exactly
   * the accepted messages in order, without those acknowledged while queued, and no message
   * number occurs twice in it.
   */
  lemma PulledThenQueuedIsTheLog(requests: seq<Request>, sub: string)
    requires sub in After(requests).0.queues
    ensures var (b, h) := After(requests);
            && sub in h.log && sub in h.pulled
            && h.pulled[sub] + b.queues[sub] == Unacked(h.log[sub])
            && IncreasingNumbers(h.pulled[sub] + b.queues[sub])
  {
    var (b, h) := After(requests);
    ReachableInv(requests);
    assert SubscriptionInv(b.queues[sub], h.log[sub], h.pulled[sub], b.lastID);
    PulledThenQueued(h.log[sub]);
    UnackedIsIncreasing(h.log[sub], b.lastID);
  }

  /** The shape of every reachable backend. */
  lemma ReachableBackends(requests: seq<Request>)
    ensures var b := After(requests).0;
            && b.queues.Keys == b.subscriptions.Keys
            && (forall s <- b.subscriptions :: b.subscriptions[s].topic in b.topics)
            && (forall s <- b.queues ::
                  |b.queues[s]| <= MAX_MESSAGES_PER_SUBSCRIPTION && IncreasingNumbers(b.queues[s]))
            && (forall s <- b.queues, p <- b.queues[s] :: p.num <= b.lastID && p.ackID == AckID(p.num, s))
  {
    var (b, h) := After(requests);
    ReachableInv(requests);
    forall s <- b.queues
      ensures |b.queues[s]| <= MAX_MESSAGES_PER_SUBSCRIPTION && IncreasingNumbers(b.queues[s])
      ensures forall p <- b.queues[s] :: p.num <= b.lastID
    {
      assert SubscriptionInv(b.queues[s], h.log[s], h.pulled[s], b.lastID);
      QueueIsIncreasing(b.queues[s], h.log[s], h.pulled[s], b.lastID);
    }
  }

  /** The ackID, a decimal number, a dash and a name, determines the message and the subscription. */
  lemma AckIDDeterminesMessage(n1: nat, s1: string, n2: nat, s2: string)
    requires AckID(n1, s1) == AckID(n2, s2)
    ensures n1 == n2 && s1 == s2
  {
    var d1, d2 := Decimal(n1), Decimal(n2);
    if |d1| < |d2| {
      assert AckID(n1, s1)[|d1|] == '-' && AckID(n2, s2)[|d1|] == d2[|d1|];
      DecimalHasOnlyDigits(n2, |d1|);
    } else if |d2| < |d1| {
      assert AckID(n2, s2)[|d2|] == '-' && AckID(n1, s1)[|d2|] == d1[|d2|];
      DecimalHasOnlyDigits(n1, |d2|);
    }
    assert d1 == AckID(n1, s1)[..|d1|] && d2 == AckID(n2, s2)[..|d2|];
    assert s1 == AckID(n1, s1)[|d1| + 1..] && s2 == AckID(n2, s2)[|d2| + 1..];
    DecimalRoundTrip(n1);
    DecimalRoundTrip(n2);
  }

  lemma QueuedIsNotReturned(b: Backend, h: History, name: string, p: Pending, r: (nat, string))
    requires ReturnedAreGone(b, h) && OwnAckIDs(b)
    requires name in b.queues && p in b.queues[name] && r in h.returned
    ensures p.ackID != AckID(r.0, r.1)
  {
    hide AckID;
    assert NotQueued(b, r.0, r.1);
    if p.ackID == AckID(r.0, r.1) {
      AckIDDeterminesMessage(p.num, name, r.0, r.1);
    }
  }

  ghost predicate AllReturned(h: History, ackIDs: seq<string>)
  {
    forall id <- ackIDs :: exists r <- h.returned :: id == AckID(r.0, r.1)
  }

  lemma ReturnedKeepQueue(b: Backend, h: History, name: string, ackIDs: seq<string>)
    requires ReturnedAreGone(b, h) && OwnAckIDs(b) && name in b.queues && AllReturned(h, ackIDs)
    ensures Keep(b.queues[name], set id | id in ackIDs) == b.queues[name]
  {
    hide AckID, ReturnedAreGone, OwnAckIDs;
    forall p <- b.queues[name]
      ensures p.ackID !in ackIDs
    {
      if p.ackID in ackIDs {
        var r :| r in h.returned && p.ackID == AckID(r.0, r.1);
        QueuedIsNotReturned(b, h, name, p, r);
      }
    }
    KeptMessages(b.queues[name], set id | id in ackIDs);
  }

  /**
   * Acknowledging ackIDs that pulls returned changes nothing, whichever subscription they are
   * sent to and whatever happened since: pulling has already removed the messages for good.
   */
  lemma AcknowledgingPulledMessagesChangesNothing(requests: seq<Request>, project: string, sub: string,
                                                  ackIDs: seq<string>)
    requires AllReturned(After(requests).1, ackIDs)
    ensures var b := After(requests).0; Valid(b) && Handle(b, Acknowledge(project, sub, Some(ackIDs))).0 == b
  {
    hide AllReturned, Explained, Keep, SubscriptionFullName, After;
    var (b, h) := After(requests);
    ReachableInv(requests);
    var name := SubscriptionFullName(project, sub);
    if name in b.subscriptions {
      ReturnedKeepQueue(b, h, name, ackIDs);
    }
  }

  // ---------------------------------------------------------------- what a batch delivers

  function Room(queue: seq<Pending>): nat
  {
    if |queue| >= MAX_MESSAGES_PER_SUBSCRIPTION then 0 else MAX_MESSAGES_PER_SUBSCRIPTION - |queue|
  }

  /** How many messages of the batch the subscription takes. */
  function Taken(b: Backend, topic: string, sub: string, count: nat): nat
    requires Valid(b) && sub in b.subscriptions
  {
    if b.subscriptions[sub].topic != topic then 0
    else if count < Room(b.queues[sub]) then count
    else Room(b.queues[sub])
  }

  function Deliveries(first: nat, sub: string, messages: seq<Message>, now: int): (queue: seq<Pending>)
    ensures |queue| == |messages|
  {
    seq(|messages|, i requires 0 <= i < |messages| => Deliverable(first + i, sub, messages[i], now))
  }

  lemma OneMoreDelivery(first: nat, sub: string, messages: seq<Message>, n: nat, now: int)
    requires n < |messages|
    ensures Deliveries(first, sub, messages[..n + 1], now)
         == Deliveries(first, sub, messages[..n], now) + [Deliverable(first + n, sub, messages[n], now)]
  {
    hide Deliverable;
  }

  lemma FanOutTo(b: Backend, topic: string, m: Message, now: int, sub: string)
    requires Valid(b) && sub in b.subscriptions
    ensures FanOut(b, topic, m, now).queues[sub]
         == b.queues[sub] + if Taken(b, topic, sub, 1) == 1 then [Deliverable(b.lastID + 1, sub, m, now)] else []
  {
    hide Deliverable;
  }

  /**
   * A batch and any subscription: those of the topic take the longest prefix that fits into their
   * own queue, numbered and in order, and drop the rest; the others take nothing.
   */
  lemma {:induction false} BatchFillsQueueInOrder(b: Backend, topic: string, messages: seq<Message>, now: int,
                                                  sub: string)
    requires Valid(b) && sub in b.subscriptions
    ensures var after := PublishAll(b, topic, messages, now);
            && Valid(after) && sub in after.queues
            && after.queues[sub]
               == b.queues[sub] + Deliveries(b.lastID + 1, sub, messages[..Taken(b, topic, sub, |messages|)], now)
    decreases |messages|
  {
    hide FanOut, Deliveries, Room, Deliverable;
    PublishKeepsKeys(b, topic, messages, now);
    if messages == [] {
      NoDeliveries(b.lastID + 1, sub, now);
      assert messages[..Taken(b, topic, sub, 0)] == [];
    } else {
      var n := |messages| - 1;
      var before := PublishAll(b, topic, messages[..n], now);
      PublishKeepsKeys(b, topic, messages[..n], now);
      BatchFillsQueueInOrder(b, topic, messages[..n], now, sub);
      FanOutTo(before, topic, messages[n], now, sub);
      TakenNext(b, before, topic, sub, messages, now);
      OneMoreDelivery(b.lastID + 1, sub, messages, n, now);
      assert messages[..n][..Taken(b, topic, sub, n)] == messages[..Taken(b, topic, sub, n)];
    }
  }

  /** A message of the batch is dropped if and only if the subscription's own queue is full at its fan-out. */
  lemma DroppedExactlyWhenOwnQueueIsFull(b: Backend, topic: string, messages: seq<Message>, now: int, sub: string,
                                         i: nat)
    requires Valid(b) && sub in b.subscriptions && b.subscriptions[sub].topic == topic && i < |messages|
    ensures var before := PublishAll(b, topic, messages[..i], now);
            && sub in before.queues
            && (i >= Taken(b, topic, sub, |messages|) <==> |before.queues[sub]| >= MAX_MESSAGES_PER_SUBSCRIPTION)
  {
    hide PublishAll, Deliveries;
    BatchFillsQueueInOrder(b, topic, messages[..i], now, sub);
  }

  lemma TakenNext(b: Backend, before: Backend, topic: string, sub: string, messages: seq<Message>, now: int)
    requires Valid(b) && Valid(before) && messages != []
    requires sub in b.subscriptions && before.subscriptions == b.subscriptions
    requires |before.queues[sub]| == |b.queues[sub]| + Taken(b, topic, sub, |messages| - 1)
    ensures Taken(b, topic, sub, |messages|) == Taken(b, topic, sub, |messages| - 1) + Taken(before, topic, sub, 1)
    ensures Taken(before, topic, sub, 1) == 1 ==> Taken(b, topic, sub, |messages| - 1) == |messages| - 1
  {
  }

  lemma NoDeliveries(first: nat, sub: string, now: int)
    ensures Deliveries(first, sub, [], now) == []
  {
  }


  // ---------------------------------------------------------------- what publish, pull and the others answer

  /**
   * A publish answers with as many IDs as it was sent messages, and every subscription of the topic
   * queues the messages that fit, in order, each with its own content under the ID of the answer.
   */
  lemma PublishedIDsAreQueued(b: Backend, project: string, topic: string, messages: seq<Message>, now: int,
                              sub: string, i: nat)
    requires Valid(b) && OnPublish(b, project, topic, Some(messages), now).1.Published?
    requires sub in b.subscriptions && b.subscriptions[sub].topic == TopicFullName(project, topic)
    requires i < |messages| && |b.queues[sub]| + i < 10000
    ensures var (after, response) := OnPublish(b, project, topic, Some(messages), now);
            && |response.messageIDs| == |messages|
            && sub in after.queues && |b.queues[sub]| + i < |after.queues[sub]|
            && var p := after.queues[sub][|b.queues[sub]| + i];
               && Decimal(p.num) == response.messageIDs[i]
               && p.data == messages[i].data && p.attributes == messages[i].attributes && p.publishTime == now
  {
    hide PublishAll, TooLarge, AckID, TopicFullName;
    BatchFillsQueueInOrder(b, TopicFullName(project, topic), messages, now, sub);
  }

  lemma DecimalsDiffer(m: nat, n: nat)
    requires Decimal(m) == Decimal(n)
    ensures m == n
  {
    DecimalRoundTrip(m);
    DecimalRoundTrip(n);
  }

  lemma CounterAfter(b: Backend, r: Request)
    requires Valid(b)
    ensures var (after, response) := Handle(b, r);
            && b.lastID <= after.lastID
            && (response.Published? ==>
                  && after.lastID == b.lastID + |response.messageIDs|
                  && forall i :: 0 <= i < |response.messageIDs| ==> response.messageIDs[i] == Decimal(b.lastID + 1 + i))
  {
    hide TooLarge, ValidResourceName, TopicFullName, SubscriptionFullName, PublishAll, Decimal, Keep, SubscriptionsOf;
    if r.Publish? && r.messages.Some? {
      PublishKeepsKeys(b, TopicFullName(r.project, r.topic), r.messages.value, r.now);
    }
  }

  lemma {:induction false} CounterNeverFalls(b: Backend, h: History, requests: seq<Request>)
    requires Inv(b, h)
    ensures b.lastID <= Run(b, h, requests).0.lastID
    decreases |requests|
  {
    hide Handle, Observe;
    if requests != [] {
      CounterAfter(b, requests[0]);
      RequestKeepsInv(b, h, requests[0]);
      CounterNeverFalls(Handle(b, requests[0]).0, Observe(h, b, requests[0], Handle(b, requests[0]).1), requests[1..]);
    }
  }

  /** The state after one request and others after it. */
  ghost function Later(b: Backend, h: History, r: Request, others: seq<Request>): (s: (Backend, History))
    requires Inv(b, h)
    ensures Inv(s.0, s.1)
  {
    RequestKeepsInv(b, h, r);
    RunKeepsInv(Handle(b, r).0, Observe(h, b, r, Handle(b, r).1), others);
    Run(Handle(b, r).0, Observe(h, b, r, Handle(b, r).1), others)
  }

  /** No ID is given out twice: not within an answer, and not in two of them, whatever happens in between. */
  lemma PublishedIDsAreUnique(b: Backend, h: History, first: Request, between: seq<Request>, second: Request, i: nat,
                              j: nat)
    requires Inv(b, h) && Handle(b, first).1.Published? && i < |Handle(b, first).1.messageIDs|
    ensures j < |Handle(b, first).1.messageIDs| && j != i ==>
              Handle(b, first).1.messageIDs[i] != Handle(b, first).1.messageIDs[j]
    ensures var b2 := Later(b, h, first, between).0;
            && Valid(b2)
            && (Handle(b2, second).1.Published? && j < |Handle(b2, second).1.messageIDs| ==>
                  Handle(b, first).1.messageIDs[i] != Handle(b2, second).1.messageIDs[j])
  {
    hide Handle, Observe, Decimal;
    RequestKeepsInv(b, h, first);
    CounterAfter(b, first);
    CounterNeverFalls(Handle(b, first).0, Observe(h, b, first, Handle(b, first).1), between);
    var b2 := Later(b, h, first, between).0;
    CounterAfter(b2, second);
    forall m: nat, n: nat | Decimal(m) == Decimal(n)
      ensures m == n
    {
      DecimalsDiffer(m, n);
    }
  }

  /** Whatever is queued under this number has the content of this message. */
  ghost predicate NumberMeans(b: Backend, num: nat, m: Message, now: int)
  {
    && num <= b.lastID
    && forall s <- b.queues, p <- b.queues[s] :: p.num == num ==>
         p.data == m.data && p.attributes == m.attributes && p.publishTime == now
  }

  lemma FanOutKeepsMeaning(b: Backend, topic: string, sent: Message, at: int, num: nat, m: Message, now: int)
    requires NumberMeans(b, num, m, now)
    ensures NumberMeans(FanOut(b, topic, sent, at), num, m, now)
  {
    hide AckID;
  }

  /** The new number means the message that it is given to. */
  lemma FanOutGivesMeaning(b: Backend, topic: string, m: Message, now: int)
    requires forall s <- b.queues, p <- b.queues[s] :: p.num <= b.lastID
    ensures NumberMeans(FanOut(b, topic, m, now), b.lastID + 1, m, now)
    ensures var after := FanOut(b, topic, m, now);
            forall s <- after.queues, p <- after.queues[s] :: p.num <= b.lastID + 1
  {
    hide AckID;
  }

  lemma {:induction false} PublishKeepsMeaning(b: Backend, topic: string, messages: seq<Message>, at: int, num: nat,
                                              m: Message, now: int)
    requires NumberMeans(b, num, m, now)
    ensures NumberMeans(PublishAll(b, topic, messages, at), num, m, now)
    decreases |messages|
  {
    hide NumberMeans, FanOut;
    if messages != [] {
      PublishKeepsMeaning(b, topic, messages[..|messages| - 1], at, num, m, now);
      FanOutKeepsMeaning(PublishAll(b, topic, messages[..|messages| - 1], at), topic, messages[|messages| - 1], at,
                         num, m, now);
    }
  }

  lemma {:induction false} PublishGivesMeaning(b: Backend, topic: string, messages: seq<Message>, now: int, i: nat)
    requires i <= |messages| && forall s <- b.queues, p <- b.queues[s] :: p.num <= b.lastID
    ensures i < |messages| ==> NumberMeans(PublishAll(b, topic, messages, now), b.lastID + 1 + i, messages[i], now)
    ensures var after := PublishAll(b, topic, messages, now);
            forall s <- after.queues, p <- after.queues[s] :: p.num <= after.lastID
    decreases |messages|
  {
    hide NumberMeans, FanOut;
    PublishKeepsKeys(b, topic, messages, now);
    if messages != [] {
      var n := |messages| - 1;
      var before := PublishAll(b, topic, messages[..n], now);
      PublishKeepsKeys(b, topic, messages[..n], now);
      PublishGivesMeaning(b, topic, messages[..n], now, if i < n then i else n);
      FanOutGivesMeaning(before, topic, messages[n], now);
      if i < n {
        FanOutKeepsMeaning(before, topic, messages[n], now, b.lastID + 1 + i, messages[i], now);
      }
    }
  }

  lemma RequestKeepsMeaning(b: Backend, r: Request, num: nat, m: Message, now: int)
    requires Valid(b) && NumberMeans(b, num, m, now)
    ensures NumberMeans(Handle(b, r).0, num, m, now)
  {
    hide AckID, TopicFullName, SubscriptionFullName, ValidResourceName, TooLarge, MessageIDs, PublishAll,
         SubscriptionsOf;
    match r
    case Publish(project, topic, messages, at) =>
      if messages.Some? {
        PublishKeepsMeaning(b, TopicFullName(project, topic), messages.value, at, num, m, now);
      }
    case Acknowledge(project, sub, ackIDs) =>
      var name := SubscriptionFullName(project, sub);
      if ackIDs.Some? && name in b.queues {
        KeptMessages(b.queues[name], set id | id in ackIDs.value);
      }
    case _ =>
  }

  lemma {:induction false} RunKeepsMeaning(b: Backend, h: History, requests: seq<Request>, num: nat, m: Message,
                                           now: int)
    requires Inv(b, h) && NumberMeans(b, num, m, now)
    ensures NumberMeans(Run(b, h, requests).0, num, m, now)
    decreases |requests|
  {
    hide Handle, Observe, NumberMeans;
    if requests != [] {
      RequestKeepsMeaning(b, requests[0], num, m, now);
      RequestKeepsInv(b, h, requests[0]);
      RunKeepsMeaning(Handle(b, requests[0]).0, Observe(h, b, requests[0], Handle(b, requests[0]).1), requests[1..],
                      num, m, now);
    }
  }

  lemma NumbersWithinCounter(b: Backend, h: History)
    requires Inv(b, h)
    ensures forall s <- b.queues, p <- b.queues[s] :: p.num <= b.lastID
  {
    forall s <- b.queues, p <- b.queues[s]
      ensures p.num <= b.lastID
    {
      assert SubscriptionInv(b.queues[s], h.log[s], h.pulled[s], b.lastID);
      QueueIsIncreasing(b.queues[s], h.log[s], h.pulled[s], b.lastID);
    }
  }

  /**
   * Over any run: what a pull, of whatever subscription and however much later, returns under an ID
   * that a publish answered with is the message that was published under it.
   */
  lemma PulledUnderItsPublishedID(b: Backend, h: History, project: string, topic: string, messages: seq<Message>,
                                  now: int,
                                  i: nat, between: seq<Request>, pull: Request, p: Pending)
    requires Inv(b, h)
    requires var publish := Handle(b, Publish(project, topic, Some(messages), now)).1;
             publish.Published? && i < |publish.messageIDs| && Decimal(p.num) == publish.messageIDs[i]
    requires var response := Handle(Later(b, h, Publish(project, topic, Some(messages), now), between).0, pull).1;
             pull.Pull? && response.Received? && p in response.messages
    ensures |Handle(b, Publish(project, topic, Some(messages), now)).1.messageIDs| == |messages|
    ensures p.data == messages[i].data && p.attributes == messages[i].attributes && p.publishTime == now
  {
    hide Observe, Decimal, TooLarge, PublishAll, TopicFullName, SubscriptionFullName, Explained, ReturnedAreGone,
         TopicsExist, NumberMeans, Run;
    var publish := Publish(project, topic, Some(messages), now);
    RequestKeepsInv(b, h, publish);
    var b1, h1 := Handle(b, publish).0, Observe(h, b, publish, Handle(b, publish).1);
    NumbersWithinCounter(b, h);
    PublishGivesMeaning(b, TopicFullName(project, topic), messages, now, i);
    DecimalsDiffer(p.num, b.lastID + 1 + i);
    RunKeepsMeaning(b1, h1, between, p.num, messages[i], now);
    var later := Later(b, h, publish, between).0;
    PulledFromQueue(later, pull, p);
    MeaningOf(later, p.num, messages[i], now, p);
  }

  lemma PulledFromQueue(b: Backend, pull: Request, p: Pending)
    requires Valid(b) && pull.Pull? && Handle(b, pull).1.Received? && p in Handle(b, pull).1.messages
    ensures exists s <- b.queues :: p in b.queues[s]
  {
    hide SubscriptionFullName;
    var name := SubscriptionFullName(pull.project, pull.sub);
    assert p in b.queues[name];
  }

  lemma MeaningOf(b: Backend, num: nat, m: Message, now: int, p: Pending)
    requires NumberMeans(b, num, m, now) && p.num == num && exists s <- b.queues :: p in b.queues[s]
    ensures p.data == m.data && p.attributes == m.attributes && p.publishTime == now
  {
  }

  /** A pull of an existing subscription returns and removes as many messages as asked for, or all; 0 asks for 100. */
  lemma PullReturnsAsManyAsAsked(b: Backend, project: string, sub: string, asked: int)
    requires Valid(b) && SubscriptionFullName(project, sub) in b.subscriptions
    ensures var (after, response) := OnPull(b, project, sub, Some(asked));
            var queue := b.queues[SubscriptionFullName(project, sub)];
            var wanted := if asked == 0 then 100 else asked;
            if 0 <= asked <= 1000 then
              && response.Received? && response.messages <= queue
              && |response.messages| == (if wanted < |queue| then wanted else |queue|)
              && after == b.(queues := b.queues[SubscriptionFullName(project, sub) := queue[|response.messages|..]])
            else after == b && response == Failed(400)
  {
    hide SubscriptionFullName;
  }

  /**
   * A topic comes into being by its creation and is gone after its deletion, with its own subscriptions and no
   * others.
   */
  lemma TopicsComeAndGo(b: Backend, project: string, topic: string)
    requires Valid(b)
    ensures var name := TopicFullName(project, topic);
            var (created, c) := OnCreateTopic(b, project, topic, true);
            var (deleted, d) := OnDeleteTopic(b, project, topic);
            && (c == Done ==> name !in b.topics && created.topics == b.topics + {name}
                              && created.subscriptions == b.subscriptions && created.queues == b.queues)
            && (c == Failed(409) <==> ValidResourceName(topic) && name in b.topics)
            && (d == Done <==> name in b.topics)
            && (d == Done ==>
                  && deleted.topics == b.topics - {name}
                  && deleted.subscriptions.Keys == deleted.queues.Keys
                  && (forall s :: s in deleted.subscriptions <==>
                                  s in b.subscriptions && b.subscriptions[s].topic != name)
                  && forall s <- deleted.subscriptions ::
                       deleted.subscriptions[s] == b.subscriptions[s] && deleted.queues[s] == b.queues[s])
  {
    hide TopicFullName, ValidResourceName;
  }

  /** A subscription begins empty under an existing topic, and is gone with its queue after its deletion. */
  lemma SubscriptionsComeAndGo(b: Backend, project: string, sub: string, topic: string, deadline: int)
    requires Valid(b)
    ensures var name := SubscriptionFullName(project, sub);
            var (created, c) := OnCreateSubscription(b, project, sub, Some(Subscription(topic, deadline)));
            var (deleted, d) := OnDeleteSubscription(b, project, sub);
            && (c == Done ==>
                  && topic in b.topics && name !in b.subscriptions && name in created.subscriptions
                  && created.subscriptions[name] == Subscription(topic, if deadline == 0 then 10 else deadline)
                  && created.queues == b.queues[name := []] && created.subscriptions - {name} == b.subscriptions)
            && (d == Done <==> name in b.subscriptions)
            && (d == Done ==> deleted.subscriptions == b.subscriptions - {name} && deleted.queues == b.queues - {name})
            && (d != Done ==> deleted == b)
  {
    hide SubscriptionFullName, ValidResourceName;
  }
}
