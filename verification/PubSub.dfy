// The in-memory Pub/Sub backend: topics, subscriptions and one queue per subscription.
//
// `Handle` says what each request does to the backend as a value; the class below has the
// handlers' loops, proved against it.
module PubSub {
  import opened Wrappers
  import opened Strings

  const MAX_MESSAGE_SIZE := 10 * 1024 * 1024
  const MAX_MESSAGES_PER_SUBSCRIPTION := 10000
  const MAX_PULL_MESSAGES := 1000
  const DEFAULT_PULL_MESSAGES := 100
  const DEFAULT_ACK_DEADLINE := 10

  datatype Message = Message(data: seq<bv8>, attributes: map<string, string>)

  /** A queued message; its MessageID is `num` in decimal. */
  datatype Pending = Pending(num: nat, data: seq<bv8>, attributes: map<string, string>, publishTime: int, ackID: string)

  datatype Subscription = Subscription(topic: string, ackDeadline: int)

  datatype Backend = Backend(
    topics: set<string>,
    subscriptions: map<string, Subscription>,
    queues: map<string, seq<Pending>>,
    lastID: nat)

  /** Decoded requests; None stands for a body that is not valid JSON. */
  datatype Request =
    | CreateTopic(project: string, topic: string, wellFormed: bool)
    | DeleteTopic(project: string, topic: string)
    | CreateSubscription(project: string, sub: string, target: Option<Subscription>)
    | DeleteSubscription(project: string, sub: string)
    | Publish(project: string, topic: string, messages: Option<seq<Message>>, now: int)
    | Pull(project: string, sub: string, maxMessages: Option<int>)
    | Acknowledge(project: string, sub: string, ackIDs: Option<seq<string>>)

  datatype Response =
    | Failed(status: int)
    | Done
    | Published(messageIDs: seq<string>)
    | Received(messages: seq<Pending>)

  function TopicFullName(project: string, topic: string): string
  {
    "projects/" + project + "/topics/" + topic
  }

  function SubscriptionFullName(project: string, sub: string): string
  {
    "projects/" + project + "/subscriptions/" + sub
  }

  predicate IsLetter(c: char)
  {
    'a' <= c <= 'z' || 'A' <= c <= 'Z'
  }

  /** A letter followed by 2 to 254 letters, digits or characters of "-_.~+%". */
  predicate ValidResourceName(name: string)
  {
    && 3 <= |name| <= 255
    && IsLetter(name[0])
    && forall c <- name[1..] :: IsLetter(c) || '0' <= c <= '9' || c in "-_.~+%"
  }

  function TotalSize(messages: seq<Message>): nat
  {
    if messages == [] then 0 else TotalSize(messages[..|messages| - 1]) + |messages[|messages| - 1].data|
  }

  predicate TooLarge(messages: seq<Message>)
  {
    (exists m <- messages :: |m.data| > MAX_MESSAGE_SIZE) || TotalSize(messages) > MAX_MESSAGE_SIZE
  }

  function AckID(num: nat, sub: string): string
  {
    Decimal(num) + "-" + sub
  }

  function Deliverable(num: nat, sub: string, m: Message, now: int): Pending
  {
    Pending(num, m.data, m.attributes, now, AckID(num, sub))
  }

  /** A subscription of the topic takes the message unless its own queue is full. */
  predicate Accepts(b: Backend, topic: string, sub: string)
    requires sub in b.queues
  {
    && sub in b.subscriptions
    && b.subscriptions[sub].topic == topic
    && |b.queues[sub]| < MAX_MESSAGES_PER_SUBSCRIPTION
  }

  function QueueAfter(b: Backend, topic: string, sub: string, m: Message, now: int): seq<Pending>
    requires sub in b.queues
  {
    if Accepts(b, topic, sub) then b.queues[sub] + [Deliverable(b.lastID + 1, sub, m, now)] else b.queues[sub]
  }

  function FanOut(b: Backend, topic: string, m: Message, now: int): Backend
  {
    b.(lastID := b.lastID + 1,
       queues := map s | s in b.queues :: QueueAfter(b, topic, s, m, now))
  }

  function PublishAll(b: Backend, topic: string, messages: seq<Message>, now: int): Backend
  {
    if messages == [] then b
    else FanOut(PublishAll(b, topic, messages[..|messages| - 1], now), topic, messages[|messages| - 1], now)
  }

  /** The messages whose ackID is not acknowledged, in order. */
  function Keep(queue: seq<Pending>, acked: set<string>): seq<Pending>
  {
    if queue == [] then []
    else
      var before := Keep(queue[..|queue| - 1], acked);
      var p := queue[|queue| - 1];
      if p.ackID in acked then before else before + [p]
  }

  function SubscriptionsOf(b: Backend, topic: string): set<string>
  {
    set s | s in b.subscriptions && b.subscriptions[s].topic == topic
  }

  function Drop(b: Backend, subs: set<string>): Backend
  {
    b.(subscriptions := b.subscriptions - subs, queues := b.queues - subs)
  }

  /** The number of messages a pull may return, or None when the request is refused. */
  function PullLimit(maxMessages: int): Option<nat>
  {
    if maxMessages == 0 then Some(DEFAULT_PULL_MESSAGES)
    else if maxMessages < 1 || maxMessages > MAX_PULL_MESSAGES then None
    else Some(maxMessages)
  }

  function AtMost(limit: nat, queue: seq<Pending>): nat
  {
    if limit > |queue| then |queue| else limit
  }

  function MessageIDs(first: nat, count: nat): seq<string>
  {
    seq(count, i requires 0 <= i < count => Decimal(first + i))
  }

  ghost predicate Valid(b: Backend)
  {
    b.queues.Keys == b.subscriptions.Keys
  }

  // Each handler's effect and response, with its checks in their order.

  function OnCreateTopic(b: Backend, project: string, topic: string, wellFormed: bool): (Backend, Response)
  {
    var name := TopicFullName(project, topic);
    if !ValidResourceName(topic) || !wellFormed then (b, Failed(400))
    else if name in b.topics then (b, Failed(409))
    else (b.(topics := b.topics + {name}), Done)
  }

  function OnDeleteTopic(b: Backend, project: string, topic: string): (Backend, Response)
  {
    var name := TopicFullName(project, topic);
    if name !in b.topics then (b, Failed(404))
    else (Drop(b.(topics := b.topics - {name}), SubscriptionsOf(b, name)), Done)
  }

  function OnCreateSubscription(b: Backend, project: string, sub: string, target: Option<Subscription>): (Backend,
                                Response)
  {
    var name := SubscriptionFullName(project, sub);
    if !ValidResourceName(sub) || target.None? || target.value.topic == "" then (b, Failed(400))
    else if target.value.topic !in b.topics then (b, Failed(404))
    else if name in b.subscriptions then (b, Failed(409))
    else
      var deadline := if target.value.ackDeadline == 0 then DEFAULT_ACK_DEADLINE else target.value.ackDeadline;
      (b.(subscriptions := b.subscriptions[name := Subscription(target.value.topic, deadline)],
          queues := b.queues[name := []]), Done)
  }

  function OnDeleteSubscription(b: Backend, project: string, sub: string): (Backend, Response)
  {
    var name := SubscriptionFullName(project, sub);
    if name !in b.subscriptions then (b, Failed(404)) else (Drop(b, {name}), Done)
  }

  function OnPublish(b: Backend, project: string, topic: string, messages: Option<seq<Message>>, now: int): (Backend,
                     Response)
  {
    var name := TopicFullName(project, topic);
    if messages.None? || messages.value == [] || TooLarge(messages.value) then (b, Failed(400))
    else if name !in b.topics then (b, Failed(404))
    else (PublishAll(b, name, messages.value, now), Published(MessageIDs(b.lastID + 1, |messages.value|)))
  }

  function OnPull(b: Backend, project: string, sub: string, maxMessages: Option<int>): (Backend, Response)
    requires Valid(b)
  {
    var name := SubscriptionFullName(project, sub);
    if maxMessages.None? || PullLimit(maxMessages.value).None? then (b, Failed(400))
    else if name !in b.subscriptions then (b, Failed(404))
    else
      var n := AtMost(PullLimit(maxMessages.value).value, b.queues[name]);
      (b.(queues := b.queues[name := b.queues[name][n..]]), Received(b.queues[name][..n]))
  }

  function OnAcknowledge(b: Backend, project: string, sub: string, ackIDs: Option<seq<string>>): (Backend, Response)
    requires Valid(b)
  {
    var name := SubscriptionFullName(project, sub);
    if ackIDs.None? then (b, Failed(400))
    else if name !in b.subscriptions then (b, Failed(404))
    else (b.(queues := b.queues[name := Keep(b.queues[name], set id | id in ackIDs.value)]), Done)
  }

  function Handle(b: Backend, r: Request): (Backend, Response)
    requires Valid(b)
  {
    match r
    case CreateTopic(project, topic, wellFormed) => OnCreateTopic(b, project, topic, wellFormed)
    case DeleteTopic(project, topic) => OnDeleteTopic(b, project, topic)
    case CreateSubscription(project, sub, target) => OnCreateSubscription(b, project, sub, target)
    case DeleteSubscription(project, sub) => OnDeleteSubscription(b, project, sub)
    case Publish(project, topic, messages, now) => OnPublish(b, project, topic, messages, now)
    case Pull(project, sub, maxMessages) => OnPull(b, project, sub, maxMessages)
    case Acknowledge(project, sub, ackIDs) => OnAcknowledge(b, project, sub, ackIDs)
  }

  lemma {:induction false} PublishKeepsKeys(b: Backend, topic: string, messages: seq<Message>, now: int)
    ensures var after := PublishAll(b, topic, messages, now);
            && after.queues.Keys == b.queues.Keys
            && after.topics == b.topics && after.subscriptions == b.subscriptions
            && after.lastID == b.lastID + |messages|
  {
    if messages != [] {
      PublishKeepsKeys(b, topic, messages[..|messages| - 1], now);
    }
  }

  /** The state of the fan-out loop before it visits the subscriptions in `todo`. */
  ghost predicate FannedOut(before: Backend, queues: map<string, seq<Pending>>, todo: set<string>,
                            topic: string, m: Message, now: int)
  {
    && queues.Keys == before.queues.Keys
    && forall s <- queues :: queues[s] == if s in todo then before.queues[s] else QueueAfter(before, topic, s, m, now)
  }

  lemma FanOutBegins(before: Backend, topic: string, m: Message, now: int)
    requires Valid(before)
    ensures FannedOut(before, before.queues, before.subscriptions.Keys, topic, m, now)
  {
  }

  lemma FanOutNext(before: Backend, queues: map<string, seq<Pending>>, todo: set<string>, s: string,
                   topic: string, m: Message, now: int)
    requires Valid(before) && s in todo && s in before.subscriptions
    requires FannedOut(before, queues, todo, topic, m, now)
    ensures s in queues
    ensures FannedOut(before,
                      if before.subscriptions[s].topic == topic && |queues[s]| < MAX_MESSAGES_PER_SUBSCRIPTION
                      then queues[s := queues[s] + [Deliverable(before.lastID + 1, s, m, now)]]
                      else queues,
                      todo - {s}, topic, m, now)
  {
    hide Deliverable;
  }

  lemma FanOutEnds(before: Backend, queues: map<string, seq<Pending>>, topic: string, m: Message, now: int)
    requires FannedOut(before, queues, {}, topic, m, now)
    ensures queues == FanOut(before, topic, m, now).queues && queues.Keys == before.queues.Keys
  {
    hide QueueAfter;
  }

  /** The state of the cascade before it visits the subscriptions in `todo`. */
  ghost predicate Cascaded(before: Backend, topic: string, todo: set<string>,
                           subs: map<string, Subscription>, queues: map<string, seq<Pending>>)
  {
    && subs.Keys == queues.Keys == before.subscriptions.Keys - (SubscriptionsOf(before, topic) - todo)
    && (forall s <- subs :: subs[s] == before.subscriptions[s])
    && (forall s <- queues :: s in before.queues && queues[s] == before.queues[s])
  }

  lemma CascadeBegins(before: Backend, topic: string)
    requires Valid(before)
    ensures Cascaded(before, topic, before.subscriptions.Keys, before.subscriptions, before.queues)
  {
    assert SubscriptionsOf(before, topic) - before.subscriptions.Keys == {};
  }

  lemma CascadeNext(before: Backend, topic: string, todo: set<string>, s: string,
                    subs: map<string, Subscription>, queues: map<string, seq<Pending>>)
    requires s in todo && todo <= before.subscriptions.Keys && Cascaded(before, topic, todo, subs, queues)
    ensures s in subs && s in queues
    ensures if subs[s].topic == topic then Cascaded(before, topic, todo - {s}, subs - {s}, queues - {s})
            else Cascaded(before, topic, todo - {s}, subs, queues)
  {
  }

  lemma CascadeEnds(before: Backend, topic: string, subs: map<string, Subscription>, queues: map<string, seq<Pending>>)
    requires Valid(before) && Cascaded(before, topic, {}, subs, queues)
    ensures subs == before.subscriptions - SubscriptionsOf(before, topic)
    ensures queues == before.queues - SubscriptionsOf(before, topic)
  {
    hide SubscriptionsOf;
    MapWithout(before.subscriptions, SubscriptionsOf(before, topic), subs);
    MapWithout(before.queues, SubscriptionsOf(before, topic), queues);
  }

  lemma MapWithout<V>(m: map<string, V>, gone: set<string>, left: map<string, V>)
    requires left.Keys == m.Keys - gone && forall k <- left :: left[k] == m[k]
    ensures left == m - gone
  {
  }

  class PubSubBackend {
    var topics: set<string>
    var subscriptions: map<string, Subscription>
    var messages: map<string, seq<Pending>>
    var messageIDSeq: nat

    ghost function State(): Backend
      reads this
    {
      Backend(topics, subscriptions, messages, messageIDSeq)
    }

    ghost predicate Consistent()
      reads this
    {
      Valid(State())
    }

    constructor ()
      ensures Consistent() && State() == Backend({}, map[], map[], 0)
    {
      topics, subscriptions, messages, messageIDSeq := {}, map[], map[], 0;
    }

    method NextMessageID() returns (num: nat)
      modifies this`messageIDSeq
      ensures num == messageIDSeq == old(messageIDSeq) + 1
    {
      messageIDSeq := messageIDSeq + 1;
      num := messageIDSeq;
    }

    method HandleCreateTopic(project: string, topic: string, wellFormed: bool) returns (response: Response)
      requires Consistent()
      modifies this
      ensures Consistent()
      ensures (State(), response) == OnCreateTopic(old(State()), project, topic, wellFormed)
    {
      if !ValidResourceName(topic) {
        return Failed(400);
      }
      if !wellFormed {
        return Failed(400);
      }
      var name := TopicFullName(project, topic);
      if name in topics {
        return Failed(409);
      }
      topics := topics + {name};
      return Done;
    }

    /** Deletes the topic's subscriptions and their queues one by one, in any order. */
    method DeleteSubscriptionsOf(topic: string)
      requires Consistent()
      modifies this`subscriptions, this`messages
      ensures State() == Drop(old(State()), SubscriptionsOf(old(State()), topic))
    {
      hide Cascaded;
      ghost var before := State();
      var todo := subscriptions.Keys;
      CascadeBegins(before, topic);
      while todo != {}
        invariant todo <= before.subscriptions.Keys
        invariant topics == before.topics && messageIDSeq == before.lastID
        invariant Cascaded(before, topic, todo, subscriptions, messages)
        decreases |todo|
      {
        var s :| s in todo;
        CascadeNext(before, topic, todo, s, subscriptions, messages);
        todo := todo - {s};
        if subscriptions[s].topic == topic {
          subscriptions := subscriptions - {s};
          messages := messages - {s};
        }
      }
      CascadeEnds(before, topic, subscriptions, messages);
    }

    method HandleDeleteTopic(project: string, topic: string) returns (response: Response)
      requires Consistent()
      modifies this
      ensures Consistent()
      ensures (State(), response) == OnDeleteTopic(old(State()), project, topic)
    {
      var name := TopicFullName(project, topic);
      if name !in topics {
        return Failed(404);
      }
      topics := topics - {name};
      DeleteSubscriptionsOf(name);
      return Done;
    }

    method HandleCreateSubscription(project: string, sub: string,
                                    target: Option<Subscription>) returns (response: Response)
      requires Consistent()
      modifies this
      ensures Consistent()
      ensures (State(), response) == OnCreateSubscription(old(State()), project, sub, target)
    {
      if !ValidResourceName(sub) {
        return Failed(400);
      }
      if target.None? || target.value.topic == "" {
        return Failed(400);
      }
      var name := SubscriptionFullName(project, sub);
      if target.value.topic !in topics {
        return Failed(404);
      }
      if name in subscriptions {
        return Failed(409);
      }
      var ackDeadline := target.value.ackDeadline;
      if ackDeadline == 0 {
        ackDeadline := DEFAULT_ACK_DEADLINE;
      }
      subscriptions := subscriptions[name := Subscription(target.value.topic, ackDeadline)];
      messages := messages[name := []];
      return Done;
    }

    method HandleDeleteSubscription(project: string, sub: string) returns (response: Response)
      requires Consistent()
      modifies this
      ensures Consistent()
      ensures (State(), response) == OnDeleteSubscription(old(State()), project, sub)
    {
      var name := SubscriptionFullName(project, sub);
      if name !in subscriptions {
        return Failed(404);
      }
      subscriptions := subscriptions - {name};
      messages := messages - {name};
      return Done;
    }

    /** Copies one message to the queues of the topic's subscriptions, visiting them in any order. */
    method FanOutMessage(topic: string, m: Message, now: int) returns (num: nat)
      requires Consistent()
      modifies this
      ensures Consistent() && num == old(messageIDSeq) + 1
      ensures State() == FanOut(old(State()), topic, m, now)
    {
      hide FannedOut, Deliverable;
      ghost var before := State();
      num := NextMessageID();
      var todo := subscriptions.Keys;
      FanOutBegins(before, topic, m, now);
      while todo != {}
        invariant todo <= before.subscriptions.Keys
        invariant topics == before.topics && subscriptions == before.subscriptions && messageIDSeq == num
        invariant FannedOut(before, messages, todo, topic, m, now)
        decreases |todo|
      {
        var s :| s in todo;
        FanOutNext(before, messages, todo, s, topic, m, now);
        todo := todo - {s};
        if subscriptions[s].topic != topic {
          continue;
        }
        if |messages[s]| >= MAX_MESSAGES_PER_SUBSCRIPTION {
          continue;
        }
        messages := messages[s := messages[s] + [Deliverable(num, s, m, now)]];
      }
      FanOutEnds(before, messages, topic, m, now);
    }

    /** The size limits: one message too large, or all of them together. */
    method ExceedsLimits(batch: seq<Message>) returns (exceeds: bool)
      ensures exceeds == TooLarge(batch)
    {
      var totalSize := 0;
      for i := 0 to |batch|
        invariant totalSize == TotalSize(batch[..i])
        invariant forall m <- batch[..i] :: |m.data| <= MAX_MESSAGE_SIZE
      {
        assert batch[..i + 1][..i] == batch[..i];
        totalSize := totalSize + |batch[i].data|;
        if |batch[i].data| > MAX_MESSAGE_SIZE {
          return true;
        }
      }
      assert batch[..|batch|] == batch;
      return totalSize > MAX_MESSAGE_SIZE;
    }

    method HandlePublish(project: string, topic: string, batch: Option<seq<Message>>,
                         now: int) returns (response: Response)
      requires Consistent()
      modifies this
      ensures Consistent()
      ensures (State(), response) == OnPublish(old(State()), project, topic, batch, now)
    {
      if batch.None? || batch.value == [] {
        return Failed(400);
      }
      var exceeds := ExceedsLimits(batch.value);
      if exceeds {
        return Failed(400);
      }
      var name := TopicFullName(project, topic);
      if name !in topics {
        return Failed(404);
      }
      ghost var before := State();
      var ids := [];
      for i := 0 to |batch.value|
        invariant Consistent()
        invariant State() == PublishAll(before, name, batch.value[..i], now)
        invariant ids == MessageIDs(before.lastID + 1, i)
      {
        PublishKeepsKeys(before, name, batch.value[..i], now);
        assert batch.value[..i + 1][..i] == batch.value[..i];
        var num := FanOutMessage(name, batch.value[i], now);
        ids := ids + [Decimal(num)];
      }
      assert batch.value[..|batch.value|] == batch.value;
      return Published(ids);
    }

    method HandlePull(project: string, sub: string, maxMessages: Option<int>) returns (response: Response)
      requires Consistent()
      modifies this
      ensures Consistent()
      ensures (State(), response) == OnPull(old(State()), project, sub, maxMessages)
    {
      hide SubscriptionFullName;
      if maxMessages.None? {
        return Failed(400);
      }
      var wanted := maxMessages.value;
      if wanted == 0 {
        wanted := DEFAULT_PULL_MESSAGES;
      }
      if wanted < 1 {
        return Failed(400);
      }
      if wanted > MAX_PULL_MESSAGES {
        return Failed(400);
      }
      var name := SubscriptionFullName(project, sub);
      if name !in subscriptions {
        return Failed(404);
      }
      var queue := messages[name];
      var limit := wanted;
      if limit > |queue| {
        limit := |queue|;
      }
      var received := ReceiveFirst(queue, limit);
      if limit > 0 {
        messages := messages[name := queue[limit..]];
      } else {
        assert messages == messages[name := queue[limit..]];
      }
      return Received(received);
    }

    method ReceiveFirst(queue: seq<Pending>, limit: nat) returns (received: seq<Pending>)
      requires limit <= |queue|
      ensures received == queue[..limit]
    {
      received := [];
      for i := 0 to limit
        invariant received == queue[..i]
      {
        received := received + [queue[i]];
      }
    }

    /** Moves the kept messages to the front of the queue's own array and returns how many they are. */
    static method Compact(queue: array<Pending>, acked: set<string>) returns (kept: nat)
      modifies queue
      ensures kept <= queue.Length
      ensures queue[..kept] == Keep(old(queue[..]), acked)
    {
      kept := 0;
      for i := 0 to queue.Length
        invariant kept <= i
        invariant queue[..kept] == Keep(old(queue[..i]), acked)
        invariant queue[i..] == old(queue[i..])
      {
        assert old(queue[..i + 1])[..i] == old(queue[..i]);
        assert queue[i] == queue[i..][0] == old(queue[i]);
        assert queue[i + 1..] == queue[i..][1..];
        if queue[i].ackID !in acked {
          queue[kept] := queue[i];
          kept := kept + 1;
        }
      }
      assert old(queue[..queue.Length]) == old(queue[..]);
    }

    method HandleAcknowledge(project: string, sub: string, ackIDs: Option<seq<string>>) returns (response: Response)
      requires Consistent()
      modifies this
      ensures Consistent()
      ensures (State(), response) == OnAcknowledge(old(State()), project, sub, ackIDs)
    {
      if ackIDs.None? {
        return Failed(400);
      }
      var name := SubscriptionFullName(project, sub);
      if name !in subscriptions {
        return Failed(404);
      }
      var acked := {};
      for i := 0 to |ackIDs.value|
        invariant acked == set id | id in ackIDs.value[..i]
      {
        acked := acked + {ackIDs.value[i]};
      }
      assert ackIDs.value[..|ackIDs.value|] == ackIDs.value;
      var msgs := messages[name];
      var window := new Pending[|msgs|](i requires 0 <= i < |msgs| => msgs[i]);
      assert window[..] == msgs;
      var kept := Compact(window, acked);
      messages := messages[name := window[..kept]];
      return Done;
    }
  }

  /** The sizes of a batch add up, and the limit of ten MiB holds for each message and for all of them together. */
  lemma {:induction false} SizesAddUp(a: seq<Message>, b: seq<Message>, m: Message)
    ensures TotalSize(a + b) == TotalSize(a) + TotalSize(b) && TotalSize([m]) == |m.data|
    ensures TooLarge(a) <==> TotalSize(a) > 10_485_760 || exists x <- a :: |x.data| > 10_485_760
    decreases |b|
  {
    assert [m][..0] == [];
    if b == [] {
      assert a + b == a;
    } else {
      var front := b[..|b| - 1];
      SizesAddUp(a, front, m);
      assert (a + b)[..|a + b| - 1] == a + front;
    }
  }
}
