/** The Pub/Sub emulator as a state machine over values: what each store operation does to topics,
  subscriptions, the topic index and the message queues. Times are in nanoseconds. */
module PubSubState {
  import opened Wrappers
  import opened Text
  import opened GoTime

  const DELETED: string := "_deleted-topic_"

  type Labels = map<string, string>

  datatype Payload = Payload(data: string, attributes: map<string, string>, orderingKey: string)

  datatype Message = Message(id: string, ackID: string, payload: Payload, publishTime: int,
                             ackDeadline: int, delivered: bool, attempt: nat)

  datatype Subscription = Subscription(name: string, topic: string, ackDeadlineSeconds: int, pushEndpoint: string,
                                       deadLetterTopic: string, maxDeliveryAttempts: int)

  /** Messages by ack ID. */
  type Queue = map<string, Message>

  datatype State = State(topics: map<string, Labels>, subs: map<string, Subscription>,
                         topicSubs: map<string, set<string>>, queues: map<string, Queue>, counter: nat)

  const Empty: State := State(map[], map[], map[], map[], 0)

  // ---------- topics and subscriptions ----------

  function CreateTopic(st: State, name: string, labels: Labels): State {
    if name in st.topics then st
    else st.(topics := st.topics[name := labels],
             topicSubs := if name in st.topicSubs then st.topicSubs else st.topicSubs[name := {}])
  }

  /** The topic's subscribers, as the index has them. */
  function Recipients(st: State, topic: string): set<string> {
    if topic in st.topicSubs then st.topicSubs[topic] else {}
  }

  function Orphaned(subs: map<string, Subscription>, names: set<string>): map<string, Subscription> {
    map s | s in subs :: if s in names then subs[s].(topic := DELETED) else subs[s]
  }

  function DeleteTopic(st: State, name: string): State {
    if name !in st.topics then st
    else st.(topics := st.topics - {name},
             subs := Orphaned(st.subs, Recipients(st, name)),
             topicSubs := st.topicSubs - {name})
  }

  function WithDefaults(cfg: Subscription): Subscription {
    cfg.(ackDeadlineSeconds := if cfg.ackDeadlineSeconds <= 0 then 10 else cfg.ackDeadlineSeconds)
  }

  function CreateSubscription(st: State, cfg: Subscription): State {
    if cfg.name in st.subs || cfg.topic !in st.topics then st
    else st.(subs := st.subs[cfg.name := WithDefaults(cfg)],
             queues := st.queues[cfg.name := map[]],
             topicSubs := st.topicSubs[cfg.topic := Recipients(st, cfg.topic) + {cfg.name}])
  }

  function DeleteSubscription(st: State, name: string): State {
    if name !in st.subs then st
    else
      var topic := st.subs[name].topic;
      st.(subs := st.subs - {name},
          queues := st.queues - {name},
          topicSubs := if topic in st.topicSubs then st.topicSubs[topic := st.topicSubs[topic] - {name}]
                       else st.topicSubs)
  }

  // ---------- publishing ----------

  function AckID(sub: string, id: string): string {
    sub + ":" + id
  }

  function Fresh(sub: string, id: string, p: Payload, now: int): Message {
    Message(id, AckID(sub, id), p, now, ZERO_TIME, false, 0)
  }

  /** A copy for every existing recipient. */
  function FanOut(queues: map<string, Queue>, recipients: set<string>, id: string, p: Payload,
                  now: int): map<string, Queue> {
    map s | s in queues ::
      if s in recipients then queues[s][AckID(s, id) := Fresh(s, id, p, now)] else queues[s]
  }

  function PublishOne(st: State, topic: string, p: Payload, now: int): State {
    st.(counter := st.counter + 1,
        queues := FanOut(st.queues, Recipients(st, topic), Decimal(st.counter + 1), p, now))
  }

  function PublishAll(st: State, topic: string, inputs: seq<Payload>, now: int): State
    decreases inputs
  {
    if inputs == [] then st else PublishAll(PublishOne(st, topic, inputs[0], now), topic, inputs[1..], now)
  }

  function Publish(st: State, topic: string, inputs: seq<Payload>, now: int): State {
    if topic !in st.topics then st else PublishAll(st, topic, inputs, now)
  }

  // ---------- delivery ----------

  predicate Available(m: Message, now: int) {
    !m.delivered || now > m.ackDeadline
  }

  /** IDs of the available messages, in the order of their decimal numerals as strings. */
  ghost function Candidates(q: Queue, now: int): seq<string> {
    Ascending(AvailableIDs(q, now))
  }

  ghost function AvailableIDs(q: Queue, now: int): set<string> {
    set a | a in q && Available(q[a], now) :: q[a].id
  }

  function Take(ids: seq<string>, max: int): seq<string> {
    if max <= 0 then [] else if max <= |ids| then ids[..max] else ids
  }

  function Deliver(m: Message, now: int, seconds: int): Message {
    m.(delivered := true, ackDeadline := now + seconds * SECOND)
  }

  function WithQueue(st: State, sub: string, q: Queue): State {
    st.(queues := st.queues[sub := q])
  }

  ghost function PulledIDs(st: State, sub: string, max: int, now: int): seq<string> {
    if sub in st.queues then Take(Candidates(st.queues[sub], now), max) else []
  }

  ghost function Pull(st: State, sub: string, max: int, now: int): State {
    if sub !in st.subs || sub !in st.queues then st
    else WithQueue(st, sub, Pulled(st.queues[sub], PulledIDs(st, sub, max, now), now, st.subs[sub].ackDeadlineSeconds))
  }

  function Pulled(q: Queue, ids: seq<string>, now: int, seconds: int): Queue {
    map a | a in q :: if q[a].id in ids then Deliver(q[a], now, seconds) else q[a]
  }

  function Acknowledge(st: State, sub: string, ackIDs: seq<string>): State {
    if sub !in st.subs || sub !in st.queues then st
    else WithQueue(st, sub, map a | a in st.queues[sub] && a !in ackIDs :: st.queues[sub][a])
  }

  function Redeadline(m: Message, seconds: int, now: int): Message {
    if seconds == 0 then m.(ackDeadline := ZERO_TIME, delivered := false)
    else m.(ackDeadline := now + seconds * SECOND)
  }

  function ModifyAckDeadline(st: State, sub: string, ackIDs: seq<string>, seconds: int, now: int): State {
    if sub !in st.subs || sub !in st.queues then st
    else WithQueue(st, sub, Redeadlined(st.queues[sub], ackIDs, seconds, now))
  }

  function Redeadlined(q: Queue, ackIDs: seq<string>, seconds: int, now: int): Queue {
    map a | a in q :: if a in ackIDs then Redeadline(q[a], seconds, now) else q[a]
  }

  /** What a push tick takes: every available message, each counted as one more attempt. */
  function PullAll(st: State, sub: string, now: int): State {
    if sub !in st.subs || sub !in st.queues then st
    else WithQueue(st, sub, AllPulled(st.queues[sub], now, st.subs[sub].ackDeadlineSeconds))
  }

  function Attempt(m: Message, now: int, seconds: int): Message {
    Deliver(m, now, seconds).(attempt := m.attempt + 1)
  }

  function AllPulled(q: Queue, now: int, seconds: int): Queue {
    map a | a in q :: if Available(q[a], now) then Attempt(q[a], now, seconds) else q[a]
  }

  // ---------- dead letters ----------

  predicate CanForward(st: State, sub: string, ackID: string) {
    && sub in st.subs && st.subs[sub].deadLetterTopic != ""
    && sub in st.queues && ackID in st.queues[sub]
    && st.subs[sub].deadLetterTopic in st.topics
  }

  function Forward(st: State, sub: string, ackID: string, now: int): State {
    if !CanForward(st, sub, ackID) then st
    else
      var m := st.queues[sub][ackID];
      var published := PublishOne(st, st.subs[sub].deadLetterTopic, m.payload, now);
      WithQueue(published, sub, published.queues[sub] - {m.ackID})
  }

  // ---------- persistence ----------

  /** The persisted records, without the index and the delivery attempts. */
  datatype Disk = Disk(topics: map<string, Labels>, subs: map<string, Subscription>,
                       queues: map<string, Queue>, counter: nat)

  function WithoutAttempts(q: Queue): Queue {
    map a | a in q :: q[a].(attempt := 0)
  }

  function AllWithoutAttempts(queues: map<string, Queue>): map<string, Queue> {
    map s | s in queues :: WithoutAttempts(queues[s])
  }

  function Persisted(st: State): Disk {
    Disk(st.topics, st.subs, AllWithoutAttempts(st.queues), st.counter)
  }

  function SubscribersOf(subs: map<string, Subscription>, topic: string): set<string> {
    set s | s in subs && subs[s].topic == topic
  }

  function TopicsOf(subs: map<string, Subscription>): set<string> {
    set s | s in subs && subs[s].topic != DELETED :: subs[s].topic
  }

  /** The index over given topics that lists every subscription under its topic, except those that carry
    the mark of a deleted topic. */
  function IndexOf(topics: set<string>, subs: map<string, Subscription>): map<string, set<string>> {
    map t | t in topics + TopicsOf(subs) :: if t == DELETED then {} else SubscribersOf(subs, t)
  }

  /** The state a restart rebuilds. */
  function Loaded(d: Disk): State {
    State(d.topics, d.subs, IndexOf(d.topics.Keys, d.subs),
          map s | s in d.queues.Keys + d.subs.Keys :: if s in d.queues then d.queues[s] else map[],
          d.counter)
  }

  // ---------- runs ----------

  datatype Op =
    | OpCreateTopic(name: string, labels: Labels)
    | OpDeleteTopic(name: string)
    | OpCreateSubscription(cfg: Subscription)
    | OpDeleteSubscription(name: string)
    | OpPublish(topic: string, inputs: seq<Payload>, now: int)
    | OpPull(sub: string, max: int, now: int)
    | OpAcknowledge(sub: string, ackIDs: seq<string>)
    | OpModifyAckDeadline(sub: string, ackIDs: seq<string>, seconds: int, now: int)
    | OpPullAll(sub: string, now: int)
    | OpForward(sub: string, ackID: string, now: int)

  ghost function Exec(st: State, op: Op): State {
    match op
    case OpCreateTopic(name, labels) => CreateTopic(st, name, labels)
    case OpDeleteTopic(name) => DeleteTopic(st, name)
    case OpCreateSubscription(cfg) => CreateSubscription(st, cfg)
    case OpDeleteSubscription(name) => DeleteSubscription(st, name)
    case OpPublish(topic, inputs, now) => Publish(st, topic, inputs, now)
    case OpPull(sub, max, now) => Pull(st, sub, max, now)
    case OpAcknowledge(sub, ackIDs) => Acknowledge(st, sub, ackIDs)
    case OpModifyAckDeadline(sub, ackIDs, seconds, now) => ModifyAckDeadline(st, sub, ackIDs, seconds, now)
    case OpPullAll(sub, now) => PullAll(st, sub, now)
    case OpForward(sub, ackID, now) => Forward(st, sub, ackID, now)
  }

  /** Whether the operation writes its outcome to disk: every success does, except a push tick's pull. */
  predicate Persists(st: State, op: Op) {
    match op
    case OpCreateTopic(name, _) => name !in st.topics
    case OpDeleteTopic(name) => name in st.topics
    case OpCreateSubscription(cfg) => cfg.name !in st.subs && cfg.topic in st.topics
    case OpDeleteSubscription(name) => name in st.subs
    case OpPublish(topic, _, _) => topic in st.topics
    case OpPull(sub, _, _) => sub in st.subs && sub in st.queues
    case OpAcknowledge(sub, _) => sub in st.subs && sub in st.queues
    case OpModifyAckDeadline(sub, _, _, _) => sub in st.subs && sub in st.queues
    case OpPullAll(_, _) => false
    case OpForward(sub, ackID, _) => CanForward(st, sub, ackID)
  }

  // ---------- what every operation keeps ----------

  /** The ack ID of the `n`-th message, on a subscription. */
  function NthAckID(sub: string, n: nat): string {
    AckID(sub, Decimal(n))
  }

  ghost predicate IssuedBy(sub: string, ackID: string, counter: nat) {
    exists n: nat :: 1 <= n <= counter && ackID == NthAckID(sub, n)
  }

  ghost predicate QueueOk(sub: string, q: Queue, counter: nat) {
    forall a :: a in q ==> q[a].ackID == a && a == AckID(sub, q[a].id) && IssuedBy(sub, a, counter)
  }

  /** The index lists a subscription under no topic but its own. */
  ghost predicate IndexSound(st: State) {
    forall t, s :: t in st.topicSubs && s in st.topicSubs[t] ==> s in st.subs && st.subs[s].topic == t
  }

  /** A subscription whose topic was not deleted is listed. */
  ghost predicate IndexComplete(st: State) {
    forall s :: s in st.subs && st.subs[s].topic != DELETED ==>
                  st.subs[s].topic in st.topicSubs && s in st.topicSubs[st.subs[s].topic]
  }

  ghost predicate SubsOk(st: State) {
    forall s :: s in st.subs ==> st.subs[s].name == s && st.subs[s].ackDeadlineSeconds > 0
  }

  ghost predicate QueuesOk(st: State) {
    forall s :: s in st.queues ==> QueueOk(s, st.queues[s], st.counter)
  }

  ghost predicate WellFormed(st: State) {
    && st.topicSubs.Keys == st.topics.Keys
    && st.queues.Keys == st.subs.Keys
    && IndexSound(st) && IndexComplete(st) && SubsOk(st) && QueuesOk(st)
  }

  /** Ack IDs name one subscription and one number, and so one message. */
  lemma {:induction false} AckIDInjective(s: string, m: nat, t: string, n: nat)
    requires NthAckID(s, m) == NthAckID(t, n)
    ensures s == t && m == n
  {
    SplitAtLast(s, t, Decimal(m), Decimal(n), ':');
    DecimalInjective(m, n);
  }

  lemma NthAckIDInjective(sub: string)
    ensures forall m: nat, n: nat :: NthAckID(sub, m) == NthAckID(sub, n) ==> m == n
  {
    forall m: nat, n: nat | NthAckID(sub, m) == NthAckID(sub, n) ensures m == n {
      AckIDInjective(sub, m, sub, n);
    }
  }

  lemma QueueOkGrows(sub: string, q: Queue, counter: nat, counter': nat)
    requires QueueOk(sub, q, counter) && counter <= counter'
    ensures QueueOk(sub, q, counter')
  {
    forall a | a in q ensures IssuedBy(sub, a, counter') {
      var n: nat :| 1 <= n <= counter && a == NthAckID(sub, n);
    }
  }

  lemma PublishOneOk(st: State, topic: string, p: Payload, now: int)
    requires WellFormed(st)
    ensures WellFormed(PublishOne(st, topic, p, now))
  {
    var n := st.counter + 1;
    var queues := PublishOne(st, topic, p, now).queues;
    forall s | s in queues ensures QueueOk(s, queues[s], n) {
      QueueOkGrows(s, st.queues[s], st.counter, n);
      assert IssuedBy(s, NthAckID(s, n), n);
    }
  }

  lemma {:induction false} PublishAllOk(st: State, topic: string, inputs: seq<Payload>, now: int)
    requires WellFormed(st)
    ensures WellFormed(PublishAll(st, topic, inputs, now))
    ensures PublishAll(st, topic, inputs, now).counter == st.counter + |inputs|
    decreases inputs
  {
    if inputs != [] {
      PublishOneOk(st, topic, inputs[0], now);
      PublishAllOk(PublishOne(st, topic, inputs[0], now), topic, inputs[1..], now);
    }
  }

  lemma WithQueueOk(st: State, sub: string, q: Queue)
    requires WellFormed(st) && sub in st.queues && QueueOk(sub, q, st.counter)
    ensures WellFormed(WithQueue(st, sub, q))
  {
    hide QueueOk;
  }

  /** `r` holds some of the messages of `q`, perhaps with other leases. */
  ghost predicate Released(q: Queue, r: Queue) {
    forall a :: a in r ==> a in q && r[a].ackID == q[a].ackID && r[a].id == q[a].id && r[a].payload == q[a].payload
                           && r[a].publishTime == q[a].publishTime
  }

  lemma ReleasedOk(sub: string, q: Queue, r: Queue, counter: nat)
    requires QueueOk(sub, q, counter) && Released(q, r)
    ensures QueueOk(sub, r, counter)
  {
    hide IssuedBy;
  }

  lemma ForwardOk(st: State, sub: string, ackID: string, now: int)
    requires WellFormed(st)
    ensures WellFormed(Forward(st, sub, ackID, now))
  {
    if CanForward(st, sub, ackID) {
      var m := st.queues[sub][ackID];
      var published := PublishOne(st, st.subs[sub].deadLetterTopic, m.payload, now);
      PublishOneOk(st, st.subs[sub].deadLetterTopic, m.payload, now);
      ReleasedOk(sub, published.queues[sub], published.queues[sub] - {m.ackID}, published.counter);
      WithQueueOk(published, sub, published.queues[sub] - {m.ackID});
    }
  }

  lemma CreateTopicOk(st: State, name: string, labels: Labels)
    requires WellFormed(st)
    ensures WellFormed(CreateTopic(st, name, labels))
  {
    hide QueueOk;
  }

  lemma DeleteTopicOk(st: State, name: string)
    requires WellFormed(st)
    ensures WellFormed(DeleteTopic(st, name))
  {
    hide QueueOk;
  }

  lemma CreateSubscriptionOk(st: State, cfg: Subscription)
    requires WellFormed(st)
    ensures WellFormed(CreateSubscription(st, cfg))
  {
    var next := CreateSubscription(st, cfg);
    if next != st {
      QueuesOkWithNew(st, cfg.name);
      IndexWithNew(st, cfg);
      hide IndexSound, IndexComplete, QueueOk;
    }
  }

  lemma QueuesOkWithNew(st: State, name: string)
    requires QueuesOk(st)
    ensures QueuesOk(st.(queues := st.queues[name := map[]]))
  {
    assert QueueOk(name, map[], st.counter);
    hide QueueOk;
  }

  lemma IndexWithNew(st: State, cfg: Subscription)
    requires WellFormed(st) && cfg.name !in st.subs && cfg.topic in st.topics
    ensures IndexSound(CreateSubscription(st, cfg)) && IndexComplete(CreateSubscription(st, cfg))
  {
    hide QueuesOk, SubsOk;
  }

  lemma DeleteSubscriptionOk(st: State, name: string)
    requires WellFormed(st)
    ensures WellFormed(DeleteSubscription(st, name))
  {
    hide QueueOk;
  }

  /** Every operation keeps the invariant. */
  lemma {:induction false} ExecOk(st: State, op: Op)
    requires WellFormed(st)
    ensures WellFormed(Exec(st, op))
  {
    match op {
      case OpCreateTopic(name, labels) => CreateTopicOk(st, name, labels);
      case OpDeleteTopic(name) => DeleteTopicOk(st, name);
      case OpCreateSubscription(cfg) => CreateSubscriptionOk(st, cfg);
      case OpDeleteSubscription(name) => DeleteSubscriptionOk(st, name);
      case OpPublish(topic, inputs, now) => PublishAllOk(st, topic, inputs, now);
      case OpForward(sub, ackID, now) => ForwardOk(st, sub, ackID, now);
      case _ => QueueOpOk(st, op);
    }
  }

  /** Pulls, acknowledgements and deadline changes work on one queue; they neither add a message nor
    alter what it carries. */
  lemma {:induction false} QueueOpOk(st: State, op: Op)
    requires WellFormed(st)
    requires op.OpPull? || op.OpAcknowledge? || op.OpModifyAckDeadline? || op.OpPullAll?
    ensures WellFormed(Exec(st, op))
    ensures Exec(st, op) == WithQueues(st, Exec(st, op).queues)
    ensures forall s :: s in st.queues ==> Released(st.queues[s], Exec(st, op).queues[s])
    ensures !op.OpAcknowledge? ==> forall s :: s in st.queues ==> Exec(st, op).queues[s].Keys == st.queues[s].Keys
  {
    hide QueueOk, Exec, WithQueue, Released;
    var sub := op.sub;
    AllReleased(st);
    QueueOpReleases(st, op);
    if sub in st.subs {
      var r := Exec(st, op).queues[sub];
      ReleasedOk(sub, st.queues[sub], r, st.counter);
      WithQueueOk(st, sub, r);
      WithQueueElsewhere(st, sub, r);
    }
  }

  lemma AllReleased(st: State)
    ensures forall s :: s in st.queues ==> Released(st.queues[s], st.queues[s])
  {}

  lemma WithQueueElsewhere(st: State, sub: string, q: Queue)
    requires sub in st.queues
    ensures WithQueue(st, sub, q) == WithQueues(st, WithQueue(st, sub, q).queues)
    ensures WithQueue(st, sub, q).queues == st.queues[sub := q]
  {}

  lemma QueueOpReleases(st: State, op: Op)
    requires op.OpPull? || op.OpAcknowledge? || op.OpModifyAckDeadline? || op.OpPullAll?
    requires st.queues.Keys == st.subs.Keys
    ensures op.sub !in st.subs ==> Exec(st, op) == st
    ensures op.sub in st.subs ==>
              && op.sub in Exec(st, op).queues
              && Exec(st, op) == WithQueue(st, op.sub, Exec(st, op).queues[op.sub])
              && Released(st.queues[op.sub], Exec(st, op).queues[op.sub])
              && (!op.OpAcknowledge? ==> Exec(st, op).queues[op.sub].Keys == st.queues[op.sub].Keys)
  {
    hide Deliver, Attempt, Redeadline, Available, PulledIDs;
    LeasesOnly();
  }

  function WithQueues(st: State, queues: map<string, Queue>): State {
    st.(queues := queues)
  }

  lemma LeasesOnly()
    ensures forall m, now, d {:trigger Deliver(m, now, d)} :: SameContent(m, Deliver(m, now, d))
    ensures forall m, now, d {:trigger Attempt(m, now, d)} :: SameContent(m, Attempt(m, now, d))
    ensures forall m, d, now {:trigger Redeadline(m, d, now)} :: SameContent(m, Redeadline(m, d, now))
  {}

  predicate SameContent(m: Message, n: Message) {
    n.ackID == m.ackID && n.id == m.id && n.payload == m.payload && n.publishTime == m.publishTime
  }

  // ---------- what a pull takes ----------

  /** A pull takes as many available messages as it may, and those whose IDs come first as strings. */
  lemma {:induction false} PullTakesTheFirst(st: State, sub: string, max: int, now: int, taken: string, left: string)
    requires sub in st.queues
    ensures var all, ids := AvailableIDs(st.queues[sub], now), PulledIDs(st, sub, max, now);
            && |ids| == (if max <= 0 then 0 else if max <= |all| then max else |all|)
            && IsAscending(ids)
            && (taken in ids ==> taken in all)
            && (taken in ids && left in all && left !in ids ==> Compare(taken, left) < 0)
  {
    hide AvailableIDs, Take;
    TakeFirst(Candidates(st.queues[sub], now), max, taken, left);
  }

  lemma {:induction false} TakeFirst(sorted: seq<string>, max: int, taken: string, left: string)
    requires IsAscending(sorted)
    ensures var ids := Take(sorted, max);
            && |ids| == (if max <= 0 then 0 else if max <= |sorted| then max else |sorted|)
            && IsAscending(ids)
            && (taken in ids ==> taken in sorted)
            && (taken in ids && left in sorted && left !in ids ==> Compare(taken, left) < 0)
  {
    hide Compare, Take;
    TakeIsPrefix(sorted, max);
    var n := |Take(sorted, max)|;
    if taken in Take(sorted, max) && left in sorted && left !in Take(sorted, max) {
      var i :| 0 <= i < n && sorted[i] == taken;
      var j :| n <= j < |sorted| && sorted[j] == left;
    }
  }

  lemma {:induction false} TakeIsPrefix(sorted: seq<string>, max: int)
    ensures var ids := Take(sorted, max);
            && |ids| == (if max <= 0 then 0 else if max <= |sorted| then max else |sorted|)
            && (forall x :: x in ids <==> exists i :: 0 <= i < |ids| && sorted[i] == x)
            && (forall i :: 0 <= i < |ids| ==> ids[i] == sorted[i])
  {}

  // ---------- index and restart ----------

  /** Apart from the reserved name, the index of a topic is the set of its subscriptions. */
  lemma {:induction false} IndexAgrees(st: State, topic: string)
    requires WellFormed(st) && topic in st.topics && topic != DELETED
    ensures st.topicSubs[topic] == SubscribersOf(st.subs, topic)
  {}

  /** A topic may take the reserved name; orphans then look like its subscribers, but the index does not
    list them. */
  lemma {:induction false} ReservedNameBreaksTheIndex(sub: string)
    ensures var cfg := Subscription(sub, "t", 10, "", "", 0);
            var orphaned := DeleteTopic(CreateSubscription(CreateTopic(Empty, "t", map[]), cfg), "t");
            var st := CreateTopic(orphaned, DELETED, map[]);
            DELETED in st.topicSubs && st.topicSubs[DELETED] != SubscribersOf(st.subs, DELETED)
  {
    var cfg := Subscription(sub, "t", 10, "", "", 0);
    var orphaned := DeleteTopic(CreateSubscription(CreateTopic(Empty, "t", map[]), cfg), "t");
    var st := CreateTopic(orphaned, DELETED, map[]);
    assert st.subs[sub].topic == DELETED;
    assert sub in SubscribersOf(st.subs, DELETED);
  }

  /** The disk holds what memory holds, up to leases and attempts. */
  ghost predicate InStep(st: State, d: Disk) {
    && d.topics == st.topics && d.subs == st.subs && d.counter == st.counter
    && d.queues.Keys == st.queues.Keys
    && forall s :: s in st.queues ==> SameMessages(st.queues[s], d.queues[s])
  }

  ghost predicate SameMessages(q: Queue, r: Queue) {
    q.Keys == r.Keys && Released(q, r)
  }

  /** What a restart loads from a disk that is in step is well formed, and lists every subscription that
    memory listed, except under the reserved name. */
  lemma {:induction false} LoadedOk(st: State, d: Disk)
    requires WellFormed(st) && InStep(st, d)
    ensures WellFormed(Loaded(d)) && InStep(Loaded(d), d)
    ensures Loaded(d).queues == d.queues
    ensures Loaded(d).topicSubs.Keys == st.topicSubs.Keys
    ensures forall t :: t in st.topicSubs ==> Loaded(d).topicSubs[t] == if t == DELETED then {} else st.topicSubs[t]
  {
    var l := Loaded(d);
    IndexLoaded(st, d);
    assert l.queues == d.queues;
    forall s | s in d.queues ensures QueueOk(s, d.queues[s], d.counter) {
      ReleasedOk(s, st.queues[s], d.queues[s], d.counter);
    }
    SameMessagesReflexive();
    hide QueueOk, SameMessages, IndexSound, IndexComplete;
  }

  lemma IndexLoaded(st: State, d: Disk)
    requires WellFormed(st) && d.topics == st.topics && d.subs == st.subs
    ensures Loaded(d).topicSubs.Keys == st.topicSubs.Keys
    ensures forall t :: t in st.topicSubs ==> Loaded(d).topicSubs[t] == if t == DELETED then {} else st.topicSubs[t]
    ensures IndexSound(Loaded(d)) && IndexComplete(Loaded(d))
  {
    assert TopicsOf(d.subs) <= d.topics.Keys;
    assert Loaded(d).topicSubs.Keys == d.topics.Keys;
    forall t | t in st.topicSubs && t != DELETED ensures Loaded(d).topicSubs[t] == st.topicSubs[t] {
      IndexAgrees(st, t);
    }
  }

  lemma SameMessagesReflexive()
    ensures forall q :: SameMessages(q, q)
  {}

  lemma PersistedInStep(st: State)
    ensures InStep(st, Persisted(st))
  {}

  /** A restart rebuilds the state, with the delivery attempts reset, exactly when no subscription is
    attached to a topic of the reserved name. */
  lemma {:induction false} RestartRebuilds(st: State)
    requires WellFormed(st)
    ensures WellFormed(Loaded(Persisted(st)))
    ensures Loaded(Persisted(st)) == st.(queues := AllWithoutAttempts(st.queues)) <==> Recipients(st, DELETED) == {}
  {
    PersistedInStep(st);
    LoadedOk(st, Persisted(st));
    var l := Loaded(Persisted(st));
    if Recipients(st, DELETED) == {} {
      assert l.topicSubs == st.topicSubs;
    }
  }
}
