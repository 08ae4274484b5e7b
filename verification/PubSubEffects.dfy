/** What the operations of the Pub/Sub emulator do to one message or one subscription, told by its fields. */
module PubSubEffects {
  import opened Wrappers
  import opened Text
  import opened GoTime
  import opened PubSubState

  function MessageAt(st: State, s: string, a: string): Option<Message> {
    if s in st.queues && a in st.queues[s] then Some(st.queues[s][a]) else None
  }

  function SubAt(st: State, s: string): Option<Subscription> {
    if s in st.subs then Some(st.subs[s]) else None
  }

  /** The subscriptions, the topics and the index are as they were. */
  ghost predicate SameSetup(before: State, after: State) {
    after.subs == before.subs && after.topics == before.topics && after.topicSubs == before.topicSubs
  }

  // ---------- publishing ----------

  /** The IDs of the next messages, when `counter` came before: their numbers. */
  predicate AreNext(ids: seq<string>, counter: nat, n: nat) {
    |ids| == n && forall i :: 0 <= i < n ==> ids[i] == Decimal(counter + 1 + i)
  }

  predicate IsNew(m: Message, s: string, id: string, p: Payload, now: int) {
    && m.id == id && m.ackID == s + ":" + id && m.payload == p && m.publishTime == now
    && !m.delivered && m.attempt == 0
  }

  lemma {:induction false} PublishOneMeans(st: State, topic: string, p: Payload, now: int, s: string)
    requires s in st.queues
    ensures var after, id := PublishOne(st, topic, p, now), Decimal(st.counter + 1);
            && SameSetup(st, after) && after.counter == st.counter + 1
            && (forall a :: a != s + ":" + id ==> MessageAt(after, s, a) == MessageAt(st, s, a))
            && if s in Recipients(st, topic) then
                 MessageAt(after, s, s + ":" + id).Some? && IsNew(MessageAt(after, s, s + ":" + id).value, s, id, p, now)
               else MessageAt(after, s, s + ":" + id) == MessageAt(st, s, s + ":" + id)
  {
    hide Decimal;
  }

  lemma OtherNumber(s: string, m: nat, n: nat)
    requires m != n
    ensures s + ":" + Decimal(m) != s + ":" + Decimal(n)
  {
    if NthAckID(s, m) == NthAckID(s, n) { AckIDInjective(s, m, s, n); }
  }

  /** Each input becomes, on every subscription that the topic lists, a new message under the next ID: free
    to be delivered, and with its content and the time of publishing. Nothing else changes. */
  lemma {:induction false} PublishMeans(st: State, topic: string, inputs: seq<Payload>, now: int, s: string, ids: seq<string>)
    requires s in st.queues && AreNext(ids, st.counter, |inputs|)
    ensures var after := PublishAll(st, topic, inputs, now);
            && SameSetup(st, after) && after.counter == st.counter + |inputs|
            && (forall a :: (forall i :: 0 <= i < |ids| ==> a != s + ":" + ids[i]) ==>
                              MessageAt(after, s, a) == MessageAt(st, s, a))
            && (s in Recipients(st, topic) ==>
                  forall i :: 0 <= i < |ids| ==>
                    && MessageAt(after, s, s + ":" + ids[i]).Some?
                    && IsNew(MessageAt(after, s, s + ":" + ids[i]).value, s, ids[i], inputs[i], now))
            && (s !in Recipients(st, topic) ==> s in after.queues && after.queues[s] == st.queues[s])
    decreases inputs
  {
    hide Decimal, PublishOne;
    if inputs != [] {
      var next := PublishOne(st, topic, inputs[0], now);
      PublishOneMeans(st, topic, inputs[0], now, s);
      StillThere(st, topic, inputs[0], now, s);
      assert forall i :: 0 <= i < |ids| - 1 ==> ids[1..][i] == ids[i + 1];
      PublishMeans(next, topic, inputs[1..], now, s, ids[1..]);
      var after := PublishAll(st, topic, inputs, now);
      forall a | forall i :: 0 <= i < |ids| ==> a != s + ":" + ids[i]
        ensures MessageAt(after, s, a) == MessageAt(st, s, a)
      {
        assert a != s + ":" + ids[0];
        assert forall i :: 0 <= i < |ids| - 1 ==> a != s + ":" + ids[1..][i];
      }
      if s in Recipients(st, topic) {
        FirstStays(st, next, after, topic, inputs, now, s, ids);
        forall i | 0 < i < |ids|
          ensures MessageAt(after, s, s + ":" + ids[i]).Some?
          ensures IsNew(MessageAt(after, s, s + ":" + ids[i]).value, s, ids[i], inputs[i], now)
        {
          assert ids[i] == ids[1..][i - 1] && inputs[i] == inputs[1..][i - 1];
        }
      }
    }
  }

  lemma {:induction false} StillThere(st: State, topic: string, p: Payload, now: int, s: string)
    requires s in st.queues
    ensures var next := PublishOne(st, topic, p, now);
            s in next.queues && (s !in Recipients(st, topic) ==> next.queues[s] == st.queues[s])
  {}

  lemma FirstStays(st: State, next: State, after: State, topic: string, inputs: seq<Payload>, now: int, s: string,
                   ids: seq<string>)
    requires inputs != [] && AreNext(ids, st.counter, |inputs|)
    requires MessageAt(next, s, s + ":" + ids[0]).Some?
             && IsNew(MessageAt(next, s, s + ":" + ids[0]).value, s, ids[0], inputs[0], now)
    requires forall a :: (forall i :: 0 <= i < |ids[1..]| ==> a != s + ":" + ids[1..][i]) ==>
                           MessageAt(after, s, a) == MessageAt(next, s, a)
    ensures MessageAt(after, s, s + ":" + ids[0]).Some?
    ensures IsNew(MessageAt(after, s, s + ":" + ids[0]).value, s, ids[0], inputs[0], now)
  {
    hide Decimal;
    forall i | 0 <= i < |ids[1..]| ensures s + ":" + ids[0] != s + ":" + ids[1..][i] {
      assert ids[1..][i] == ids[i + 1];
      OtherNumber(s, st.counter + 1, st.counter + 2 + i);
    }
  }

  /** `ids` are the new IDs, and each names, on every subscription that the topic lists, the message that
    was published for its input. */
  ghost predicate Published(before: State, after: State, topic: string, inputs: seq<Payload>, now: int, ids: seq<string>) {
    && AreNext(ids, before.counter, |inputs|)
    && forall s, i :: s in before.queues && s in Recipients(before, topic) && 0 <= i < |ids| ==>
         && MessageAt(after, s, s + ":" + ids[i]).Some?
         && IsNew(MessageAt(after, s, s + ":" + ids[i]).value, s, ids[i], inputs[i], now)
  }

  lemma {:induction false} AllPublished(st: State, topic: string, inputs: seq<Payload>, now: int, ids: seq<string>)
    requires AreNext(ids, st.counter, |inputs|) && topic in st.topics
    ensures Published(st, Exec(st, OpPublish(topic, inputs, now)), topic, inputs, now, ids)
  {
    hide AreNext, IsNew, PublishAll;
    forall s | s in st.queues { PublishMeans(st, topic, inputs, now, s, ids); }
  }

  // ---------- consuming ----------

  /** A pull leases what it takes: until the ack deadline has passed since then, and no longer. It changes
    nothing else. */
  lemma {:induction false} PullMeans(st: State, s: string, max: int, now: int, t: string, a: string, later: int)
    requires s in st.subs && s in st.queues
    ensures var before, after := MessageAt(st, t, a), MessageAt(Pull(st, s, max, now), t, a);
            && SameSetup(st, Pull(st, s, max, now))
            && if t == s && before.Some? && before.value.id in PulledIDs(st, s, max, now) then
                 && after.Some? && SameContent(before.value, after.value) && after.value.attempt == before.value.attempt
                 && (Available(after.value, later) <==> later > now + st.subs[s].ackDeadlineSeconds * SECOND)
               else after == before
  {}

  /** A tick of the delivery loop does the same to all that is available, and counts an attempt. */
  lemma {:induction false} PullAllMeans(st: State, s: string, now: int, t: string, a: string, later: int)
    requires s in st.subs && s in st.queues
    ensures var before, after := MessageAt(st, t, a), MessageAt(PullAll(st, s, now), t, a);
            && SameSetup(st, PullAll(st, s, now))
            && if t == s && before.Some? && Available(before.value, now) then
                 && after.Some? && SameContent(before.value, after.value) && after.value.attempt == before.value.attempt + 1
                 && (Available(after.value, later) <==> later > now + st.subs[s].ackDeadlineSeconds * SECOND)
               else after == before
  {}

  /** A message is available when it was not delivered, or its lease has run out. */
  lemma {:induction false} AvailableMeans(m: Message, now: int)
    ensures Available(m, now) <==> (m.delivered ==> m.ackDeadline < now)
  {}

  lemma {:induction false} AcknowledgeMeans(st: State, s: string, ackIDs: seq<string>, t: string, a: string)
    requires s in st.subs && s in st.queues
    ensures SameSetup(st, Acknowledge(st, s, ackIDs))
    ensures MessageAt(Acknowledge(st, s, ackIDs), t, a) == if t == s && a in ackIDs then None else MessageAt(st, t, a)
  {}

  /** A message can be dead-lettered when it waits in a subscription whose dead-letter topic exists. */
  lemma {:induction false} CanForwardMeans(st: State, s: string, a: string)
    requires WellFormed(st)
    ensures CanForward(st, s, a) <==>
              && MessageAt(st, s, a).Some? && SubAt(st, s).Some?
              && SubAt(st, s).value.deadLetterTopic != "" && SubAt(st, s).value.deadLetterTopic in st.topics
  {}

  // ---------- topics and subscriptions ----------

  /** A new subscription keeps what it asks for, a positive ack deadline included, and begins without
    messages; its topic lists it from then on. */
  lemma {:induction false} CreateSubscriptionMeans(st: State, cfg: Subscription)
    ensures var after := CreateSubscription(st, cfg);
            if cfg.name in st.subs || cfg.topic !in st.topics then after == st
            else
              && SubAt(after, cfg.name).Some?
              && var sub := SubAt(after, cfg.name).value;
                 && sub.name == cfg.name && sub.topic == cfg.topic && sub.pushEndpoint == cfg.pushEndpoint
                 && sub.deadLetterTopic == cfg.deadLetterTopic && sub.maxDeliveryAttempts == cfg.maxDeliveryAttempts
                 && sub.ackDeadlineSeconds == (if cfg.ackDeadlineSeconds > 0 then cfg.ackDeadlineSeconds else 10)
                 && (forall a :: MessageAt(after, cfg.name, a) == None)
                 && (forall s :: s != cfg.name ==> SubAt(after, s) == SubAt(st, s))
                 && (forall s, a :: s != cfg.name ==> MessageAt(after, s, a) == MessageAt(st, s, a))
                 && (forall t :: Recipients(after, t) == Recipients(st, t) + if t == cfg.topic then {cfg.name} else {})
  {}

  lemma {:induction false} DeleteSubscriptionMeans(st: State, name: string, s: string, a: string)
    requires WellFormed(st)
    ensures var after := DeleteSubscription(st, name);
            && after.topics == st.topics
            && SubAt(after, s) == (if s == name then None else SubAt(st, s))
            && MessageAt(after, s, a) == (if s == name then None else MessageAt(st, s, a))
            && (forall t :: Recipients(after, t) == Recipients(st, t) - {name})
  {
    hide QueueOk;
  }

  /** Deleting a topic leaves its subscriptions and all messages, and marks the former. */
  lemma {:induction false} DeleteTopicMeans(st: State, name: string, s: string, a: string)
    requires WellFormed(st) && name in st.topics
    ensures var after := DeleteTopic(st, name);
            && after.topics == st.topics - {name} && MessageAt(after, s, a) == MessageAt(st, s, a)
            && SubAt(after, s) == (if SubAt(st, s).Some? && s in Recipients(st, name) then
                                     Some(SubAt(st, s).value.(topic := "_deleted-topic_"))
                                   else SubAt(st, s))
            && (forall t :: Recipients(after, t) == if t == name then {} else Recipients(st, t))
  {}

  lemma {:induction false} CreateTopicMeans(st: State, name: string, labels: Labels)
    requires WellFormed(st)
    ensures var after := CreateTopic(st, name, labels);
            if name in st.topics then after == st
            else
              && after.topics == st.topics[name := labels] && after.subs == st.subs && after.queues == st.queues
              && forall t :: Recipients(after, t) == Recipients(st, t)
  {}
}
