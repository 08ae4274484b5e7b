/** The Pub/Sub store on the heap: queued messages and subscriptions that the methods edit in place, and
  the record of them on disk. Every method is proved to do what PubSubRuns says of its operation. */
module PubSubStore {
  import opened Wrappers
  import opened Text
  import opened GoTime
  import opened PubSubState
  import opened PubSubRuns
  import E = PubSubEffects

  class QueuedMessage {
    ghost const sub: string
    const id: string
    const ackID: string
    const payload: Payload
    const publishTime: int
    var ackDeadline: int
    var delivered: bool
    var attempt: nat

    constructor (ghost sub: string, m: Message)
      ensures this.sub == sub && ackID == m.ackID && Value() == m
    {
      this.sub := sub;
      id, ackID, payload, publishTime := m.id, m.ackID, m.payload, m.publishTime;
      ackDeadline, delivered, attempt := m.ackDeadline, m.delivered, m.attempt;
    }

    function Value(): Message
      reads this
    {
      Message(id, ackID, payload, publishTime, ackDeadline, delivered, attempt)
    }
  }

  class SubscriptionRecord {
    const name: string
    var topic: string
    const ackDeadlineSeconds: int
    const pushEndpoint: string
    const deadLetterTopic: string
    const maxDeliveryAttempts: int

    constructor (s: Subscription)
      ensures name == s.name && Value() == s
    {
      name, topic, ackDeadlineSeconds := s.name, s.topic, s.ackDeadlineSeconds;
      pushEndpoint, deadLetterTopic, maxDeliveryAttempts := s.pushEndpoint, s.deadLetterTopic, s.maxDeliveryAttempts;
    }

    function Value(): Subscription
      reads this
    {
      Subscription(name, topic, ackDeadlineSeconds, pushEndpoint, deadLetterTopic, maxDeliveryAttempts)
    }
  }

  type HeapQueue = map<string, QueuedMessage>

  // ---------- values on the heap ----------

  ghost function CellsOf(q: HeapQueue): set<QueuedMessage> {
    set a | a in q :: q[a]
  }

  /** The messages of `q` belong to `sub`, and are the messages `v`. */
  ghost predicate QueueIs(sub: string, q: HeapQueue, v: Queue)
    reads CellsOf(q)
  {
    q.Keys == v.Keys && forall a :: a in q ==> q[a].sub == sub && q[a].ackID == a && q[a].Value() == v[a]
  }

  /** The queues `messages`, whose messages are among `cells`, are the queues `v`. */
  ghost predicate QueuesAre(messages: map<string, HeapQueue>, cells: set<QueuedMessage>, v: map<string, Queue>)
    reads cells
  {
    && messages.Keys == v.Keys
    && forall s :: s in messages ==> CellsOf(messages[s]) <= cells && QueueIs(s, messages[s], v[s])
  }

  /** The subscriptions `subs`, which are among `records`, are the subscriptions `v`. */
  ghost predicate SubsAre(subs: map<string, SubscriptionRecord>, records: set<SubscriptionRecord>,
                          v: map<string, Subscription>)
    reads records
  {
    && subs.Keys == v.Keys
    && forall s :: s in subs ==> subs[s] in records && subs[s].name == s && subs[s].Value() == v[s]
  }

  lemma SubsAreWith(subs: map<string, SubscriptionRecord>, records: set<SubscriptionRecord>,
                    v: map<string, Subscription>, sub: SubscriptionRecord)
    requires SubsAre(subs, records, v)
    ensures SubsAre(subs[sub.name := sub], records + {sub}, v[sub.name := sub.Value()])
    ensures SubsAre(subs - {sub.name}, records, v - {sub.name})
  {}

  lemma QueuesAreWith(messages: map<string, HeapQueue>, cells: set<QueuedMessage>, v: map<string, Queue>, sub: string)
    requires QueuesAre(messages, cells, v)
    ensures QueuesAre(messages[sub := map[]], cells, v[sub := map[]])
    ensures QueuesAre(messages - {sub}, cells, v - {sub})
  {
    assert QueueIs(sub, map[], map[]);
    hide QueueIs;
  }

  // ---------- records on disk ----------

  datatype TopicRecord = TopicRecord(name: string, labels: Labels)

  /** What is written to disk: lists in no particular order. The delivery attempts are left out, and read
    back as zero. */
  datatype PersistedState = PersistedState(topics: seq<TopicRecord>, subs: seq<Subscription>,
                                           messages: map<string, seq<Message>>, msgCounter: nat)

  ghost predicate ListsTopics(ts: seq<TopicRecord>, topics: map<string, Labels>) {
    && (forall t :: t in ts ==> t.name in topics && topics[t.name] == t.labels)
    && forall name :: name in topics ==> TopicRecord(name, topics[name]) in ts
  }

  ghost predicate ListsSubs(ss: seq<Subscription>, subs: map<string, Subscription>) {
    && (forall s :: s in ss ==> s.name in subs && subs[s.name] == s)
    && forall name :: name in subs ==> subs[name].name == name && subs[name] in ss
  }

  ghost predicate ListsQueue(ms: seq<Message>, q: Queue) {
    && (forall m :: m in ms ==> m.ackID in q && q[m.ackID] == m)
    && forall a :: a in q ==> q[a].ackID == a && q[a] in ms
  }

  ghost predicate ListsQueues(ms: map<string, seq<Message>>, queues: map<string, Queue>) {
    ms.Keys == queues.Keys && forall s :: s in ms ==> ListsQueue(ms[s], queues[s])
  }

  ghost predicate Lists(p: PersistedState, d: Disk) {
    && p.msgCounter == d.counter
    && ListsTopics(p.topics, d.topics) && ListsSubs(p.subs, d.subs) && ListsQueues(p.messages, d.queues)
  }

  /** No file stands for the empty store. */
  ghost predicate OnDisk(file: Option<PersistedState>, d: Disk) {
    if file.None? then d == Persisted(Empty) else Lists(file.value, d)
  }

  // ---------- the store ----------

  class Store {
    var topics: map<string, Labels>
    var subscriptions: map<string, SubscriptionRecord>
    var topicSubs: map<string, set<string>>
    var messages: map<string, HeapQueue>
    var msgCounter: nat
    const persistent: bool
    var file: Option<PersistedState>

    ghost var world: World
    /** Every subscription that ever was, and every message that was ever queued. */
    ghost var records: set<SubscriptionRecord>
    ghost var cells: set<QueuedMessage>

    ghost function Footprint(): set<object>
      reads this
    {
      {this} + records + cells
    }

    /** The heap holds the state `st`. */
    ghost predicate Holds(st: State)
      reads this, records, cells
    {
      && topics == st.topics && topicSubs == st.topicSubs && msgCounter == st.counter
      && SubsAre(subscriptions, records, st.subs) && QueuesAre(messages, cells, st.queues)
    }

    ghost predicate Valid()
      reads this, records, cells
    {
      WorldOk(world) && Holds(world.mem) && (persistent ==> OnDisk(file, world.disk))
    }

    // ----- persistence -----

    method ListTopics() returns (ts: seq<TopicRecord>)
      ensures ListsTopics(ts, topics)
    {
      ts := [];
      var todo := topics.Keys;
      while todo != {}
        invariant todo <= topics.Keys
        invariant forall t :: t in ts ==> t.name in topics && topics[t.name] == t.labels
        invariant forall name :: name in topics && name !in todo ==> TopicRecord(name, topics[name]) in ts
        decreases |todo|
      {
        var name := AnyOf(todo);
        ts, todo := ts + [TopicRecord(name, topics[name])], todo - {name};
      }
    }

    method ListSubs(ghost subs: map<string, Subscription>) returns (ss: seq<Subscription>)
      requires SubsAre(subscriptions, records, subs)
      ensures ListsSubs(ss, subs)
    {
      ss := [];
      var todo := subscriptions.Keys;
      while todo != {}
        invariant todo <= subscriptions.Keys
        invariant forall s :: s in ss ==> s.name in subs && subs[s.name] == s
        invariant forall name :: name in subs && name !in todo ==> subs[name] in ss
        decreases |todo|
      {
        var name := AnyOf(todo);
        ss, todo := ss + [subscriptions[name].Value()], todo - {name};
      }
    }

    method ListQueue(sub: string, ghost q: Queue) returns (ms: seq<Message>)
      requires sub in messages && QueueIs(sub, messages[sub], q)
      ensures ListsQueue(ms, WithoutAttempts(q))
    {
      ms := [];
      var todo := messages[sub].Keys;
      ghost var listed := WithoutAttempts(q);
      while todo != {}
        invariant todo <= messages[sub].Keys
        invariant forall m :: m in ms ==> m.ackID in listed && listed[m.ackID] == m
        invariant forall a :: a in listed && a !in todo ==> listed[a] in ms
        decreases |todo|
      {
        var a := AnyOf(todo);
        ms, todo := ms + [messages[sub][a].Value().(attempt := 0)], todo - {a};
      }
    }

    method ListQueues(ghost queues: map<string, Queue>) returns (ms: map<string, seq<Message>>)
      requires QueuesAre(messages, cells, queues)
      ensures ListsQueues(ms, AllWithoutAttempts(queues))
    {
      ms := map[];
      var todo := messages.Keys;
      while todo != {}
        invariant todo <= messages.Keys && ms.Keys == messages.Keys - todo
        invariant forall s :: s in ms ==> ListsQueue(ms[s], WithoutAttempts(queues[s]))
        decreases |todo|
      {
        var s := AnyOf(todo);
        var listed := ListQueue(s, queues[s]);
        ms, todo := ms[s := listed], todo - {s};
      }
    }

    /** Writes the state to disk, if the store is persistent. This concludes operation `op`, which has
      brought the heap to where the operation leads. */
    method Persist(ghost op: Op)
      requires WorldOk(world) && Holds(Exec(world.mem, op)) && Persists(world.mem, op)
      modifies this`file, this`world
      ensures Valid() && world == Step(old(world), Do(op))
    {
      ghost var next := Exec(world.mem, op);
      hide WorldOk, Exec, Persists, ListsTopics, ListsSubs, ListsQueues, SubsAre, AllWithoutAttempts;
      StepOk(world, Do(op));
      if persistent {
        var ts := ListTopics();
        var ss := ListSubs(next.subs);
        var ms := ListQueues(next.queues);
        file := Some(PersistedState(ts, ss, ms, msgCounter));
      }
      world := Step(world, Do(op));
    }

    /** An operation that is refused changes neither memory nor disk. */
    static lemma Refused(w: World, op: Op)
      requires !Persists(w.mem, op) && !op.OpPullAll?
      ensures Step(w, Do(op)) == w
    {}

    /** Opens a store. A persistent one loads what an earlier process, last seen in the world `before`, left
      on disk. */
    constructor (persistent: bool, file: Option<PersistedState>, ghost before: World)
      requires WorldOk(before) && (persistent ==> OnDisk(file, before.disk))
      ensures this.persistent == persistent && fresh(records) && fresh(cells)
      ensures world == if persistent then Step(before, Restart) else Begin
      ensures Valid()
    {
      hide *;
      topics, subscriptions, topicSubs, messages, msgCounter := map[], map[], map[], map[], 0;
      this.persistent, this.file := persistent, file;
      records, cells := {}, {};
      world := Begin;
      new;
      if persistent { world := Step(before, Restart); }
      RestartOk(before);
      NothingYet();
      if persistent {
        Load(before);
      }
      Opened(file, before);
    }

    lemma Opened(file: Option<PersistedState>, before: World)
      requires persistent ==> OnDisk(file, before.disk)
      requires WorldOk(world) && world == if persistent then Step(before, Restart) else Begin
      requires Holds(world.mem) && this.file == file
      ensures Valid()
    {
      hide WorldOk, OnDisk, SubsAre, QueuesAre;
    }

    lemma NothingYet()
      requires topics == map[] && subscriptions == map[] && topicSubs == map[] && messages == map[] && msgCounter == 0
      ensures Holds(Empty) && Begin.mem == Empty && WorldOk(Begin)
    {}

    method Load(ghost before: World)
      requires WorldOk(before) && Holds(Empty) && OnDisk(file, before.disk) && records == {} && cells == {}
      modifies this
      ensures file == old(file) && world == old(world) && fresh(records) && fresh(cells)
      ensures Holds(Loaded(before.disk))
    {
      hide *;
      ghost var d := before.disk;
      FileFacts(file, before);
      if file.None? { return; }
      var state := file.value;
      EmptyFacts();
      msgCounter := state.msgCounter;
      LoadTopics(state.topics, d);
      LoadSubs(state.subs, d);
      LoadMessages(state.messages, d.queues, NoMessages(d.subs));
      LoadedFacts(d);
    }

    lemma EmptyFacts()
      requires Holds(Empty)
      ensures topics == map[] && topicSubs == map[]
      ensures SubsAre(subscriptions, records, map[]) && QueuesAre(messages, cells, map[])
    {}

    lemma LoadedFacts(d: Disk)
      requires topics == d.topics && topicSubs == IndexOf(d.topics.Keys, d.subs) && msgCounter == d.counter
      requires SubsAre(subscriptions, records, d.subs) && QueuesAre(messages, cells, d.queues) && d.queues.Keys == d.subs.Keys
      ensures Holds(Loaded(d))
    {
      assert Loaded(d).queues == d.queues;
    }

    method LoadTopics(ts: seq<TopicRecord>, ghost d: Disk)
      requires ListsTopics(ts, d.topics) && topics == map[] && topicSubs == map[]
      modifies this`topics, this`topicSubs
      ensures topics == d.topics && topicSubs == IndexOf(d.topics.Keys, map[])
    {
      for i := 0 to |ts|
        invariant forall j :: 0 <= j < i ==> ts[j].name in topics
        invariant Within(topics, d.topics) && topicSubs == map t | t in topics :: {}
      {
        assert ts[i] in ts;
        LoadTopic(ts[i]);
      }
      assert topics == d.topics;
      IndexOfNone(topics.Keys);
    }

    method LoadTopic(t: TopicRecord)
      requires topicSubs == map t | t in topics :: {}
      modifies this`topics, this`topicSubs
      ensures topics == old(topics)[t.name := t.labels] && topicSubs == map t | t in topics :: {}
    {
      topics := topics[t.name := t.labels];
      if t.name !in topicSubs {
        topicSubs := topicSubs[t.name := {}];
      }
    }

    method LoadSubs(ss: seq<Subscription>, ghost d: Disk)
      requires ListsSubs(ss, d.subs) && topicSubs == IndexOf(d.topics.Keys, map[])
      requires SubsAre(subscriptions, records, map[]) && QueuesAre(messages, cells, map[])
      modifies this`subscriptions, this`records, this`topicSubs, this`messages
      ensures forall s :: s in records ==> s in old(records) || fresh(s)
      ensures SubsAre(subscriptions, records, d.subs) && topicSubs == IndexOf(d.topics.Keys, d.subs)
      ensures QueuesAre(messages, cells, NoMessages(d.subs))
    {
      hide SubsAre, QueuesAre, IndexOf;
      ghost var loaded: map<string, Subscription> := map[];
      assert NoMessages(loaded) == map[];
      for i := 0 to |ss|
        invariant forall s :: s in records ==> s in old(records) || fresh(s)
        invariant (forall j :: 0 <= j < i ==> ss[j].name in loaded) && Within(loaded, d.subs)
        invariant SubsAre(subscriptions, records, loaded) && topicSubs == IndexOf(d.topics.Keys, loaded)
        invariant QueuesAre(messages, cells, NoMessages(loaded))
      {
        assert ss[i] in ss;
        LoadSub(ss[i], d.topics.Keys, loaded);
        loaded := loaded[ss[i].name := ss[i]];
      }
      assert loaded == d.subs;
    }

    method LoadSub(value: Subscription, ghost known: set<string>, ghost loaded: map<string, Subscription>)
      requires SubsAre(subscriptions, records, loaded) && topicSubs == IndexOf(known, loaded)
      requires QueuesAre(messages, cells, NoMessages(loaded))
      requires value.name in loaded ==> loaded[value.name] == value
      modifies this`subscriptions, this`records, this`topicSubs, this`messages
      ensures forall s :: s in records ==> s in old(records) || fresh(s)
      ensures SubsAre(subscriptions, records, loaded[value.name := value])
      ensures topicSubs == IndexOf(known, loaded[value.name := value])
      ensures QueuesAre(messages, cells, NoMessages(loaded[value.name := value]))
    {
      hide SubsAre, QueuesAre, IndexOf;
      var sub := new SubscriptionRecord(value);
      SubsAreWith(subscriptions, records, loaded, sub);
      QueuesAreWith(messages, cells, NoMessages(loaded), value.name);
      IndexOfWith(known, loaded, value);
      NoMessagesWith(messages, cells, loaded, value);
      subscriptions := subscriptions[value.name := sub];
      records := records + {sub};
      if value.topic != DELETED {
        AddToIndex(value.topic, value.name);
      }
      if value.name !in messages {
        messages := messages[value.name := map[]];
      }
    }

    method LoadMessages(ms: map<string, seq<Message>>, ghost queues: map<string, Queue>, ghost v: map<string, Queue>)
      requires ListsQueues(ms, queues) && QueuesAre(messages, cells, v)
      requires v.Keys == queues.Keys && forall s :: s in v ==> v[s] == map[]
      modifies this`messages, this`cells
      ensures forall m :: m in cells ==> m in old(cells) || fresh(m)
      ensures QueuesAre(messages, cells, queues)
    {
      hide QueuesAre;
      var todo := ms.Keys;
      ghost var loaded := v;
      while todo != {}
        invariant todo <= ms.Keys && loaded.Keys == queues.Keys
        invariant forall m :: m in cells ==> m in old(cells) || fresh(m)
        invariant forall s :: s in queues ==> loaded[s] == if s in todo then map[] else queues[s]
        invariant QueuesAre(messages, cells, loaded)
        decreases |todo|
      {
        var s := AnyOf(todo);
        LoadQueue(s, ms[s], queues[s], loaded);
        loaded, todo := loaded[s := queues[s]], todo - {s};
      }
      assert loaded == queues;
    }

    method LoadQueue(sub: string, ms: seq<Message>, ghost q: Queue, ghost v: map<string, Queue>)
      requires ListsQueue(ms, q) && QueuesAre(messages, cells, v) && sub in v && v[sub] == map[]
      modifies this`messages, this`cells
      ensures forall m :: m in cells ==> m in old(cells) || fresh(m)
      ensures QueuesAre(messages, cells, v[sub := q])
    {
      hide QueuesAre;
      ghost var loaded: Queue := map[];
      assert v[sub := loaded] == v;
      for i := 0 to |ms|
        invariant forall m :: m in cells ==> m in old(cells) || fresh(m)
        invariant (forall j :: 0 <= j < i ==> ms[j].ackID in loaded) && Within(loaded, q)
        invariant QueuesAre(messages, cells, v[sub := loaded])
      {
        assert ms[i] in ms;
        LoadMessage(sub, ms[i], v[sub := loaded]);
        UpdatedTwice(v, sub, loaded, loaded[ms[i].ackID := ms[i]]);
        loaded := loaded[ms[i].ackID := ms[i]];
      }
      assert loaded == q;
    }

    method LoadMessage(sub: string, value: Message, ghost v: map<string, Queue>)
      requires QueuesAre(messages, cells, v) && sub in v
      modifies this`messages, this`cells
      ensures forall m :: m in cells ==> m in old(cells) || fresh(m)
      ensures QueuesAre(messages, cells, v[sub := v[sub][value.ackID := value]])
    {
      var m := new QueuedMessage(sub, value);
      QueuesAreWithMessage(messages, cells, v, sub, m);
      var q: HeapQueue := if sub in messages then messages[sub] else map[];
      messages := messages[sub := q[value.ackID := m]];
      cells := cells + {m};
    }

    // ----- topics and subscriptions -----

    method CreateTopic(name: string, labels: Labels) returns (r: Result<()>)
      requires Valid()
      modifies this`topics, this`topicSubs, this`file, this`world
      ensures r == if name in old(topics) then AlreadyExists else Ok(())
      ensures world == Step(old(world), Do(OpCreateTopic(name, labels)))
      ensures Valid()
    {
      hide WorldOk, OnDisk, Step, WellFormed, SubsAre, QueuesAre;
      if name in topics {
        Refused(world, OpCreateTopic(name, labels));
        return AlreadyExists;
      }
      topics := topics[name := labels];
      if name !in topicSubs {
        topicSubs := topicSubs[name := {}];
      }
      Persist(OpCreateTopic(name, labels));
      r := Ok(());
    }

    /** Deletes a topic and marks its subscriptions, in place, as orphaned. */
    method DeleteTopic(name: string) returns (r: Result<()>)
      requires Valid()
      modifies this`topics, this`topicSubs, this`file, this`world, records
      ensures r == if name in old(topics) then Ok(()) else NotFound
      ensures world == Step(old(world), Do(OpDeleteTopic(name)))
      ensures Valid()
    {
      hide WorldOk, OnDisk, Step, WellFormed, SubsAre, QueuesAre;
      if name !in topics {
        Refused(world, OpDeleteTopic(name));
        return NotFound;
      }
      topics := topics - {name};
      assert Orphaned(world.mem.subs, {}) == world.mem.subs;
      if name in topicSubs {
        Orphan(topicSubs[name], world.mem.subs);
        topicSubs := topicSubs - {name};
      }
      Persist(OpDeleteTopic(name));
      r := Ok(());
    }

    method Orphan(subs: set<string>, ghost v: map<string, Subscription>)
      requires SubsAre(subscriptions, records, v)
      modifies records
      ensures SubsAre(subscriptions, records, Orphaned(v, subs))
    {
      var todo := subs;
      while todo != {}
        invariant todo <= subs
        invariant forall s :: s in v ==> subscriptions[s].name == s
        invariant forall s :: s in v ==>
                    subscriptions[s].Value() == if s in subs && s !in todo then v[s].(topic := DELETED) else v[s]
        decreases |todo|
      {
        var s := AnyOf(todo);
        if s in subscriptions {
          subscriptions[s].topic := DELETED;
        }
        todo := todo - {s};
      }
    }

    method CreateSubscription(cfg: Subscription) returns (r: Result<Subscription>)
      requires Valid()
      modifies this`subscriptions, this`records, this`messages, this`topicSubs, this`file, this`world
      ensures r == if cfg.name in old(subscriptions) then AlreadyExists
                   else if cfg.topic !in old(topics) then NotFound
                   else Ok(WithDefaults(cfg))
      ensures forall s :: s in records ==> s in old(records) || fresh(s)
      ensures world == Step(old(world), Do(OpCreateSubscription(cfg)))
      ensures Valid()
    {
      assert topics.Keys == topicSubs.Keys && subscriptions.Keys == world.mem.subs.Keys;
      hide WorldOk, OnDisk, Step, WellFormed, SubsAre, QueuesAre;
      if cfg.name in subscriptions {
        Refused(world, OpCreateSubscription(cfg));
        return AlreadyExists;
      }
      if cfg.topic !in topics {
        Refused(world, OpCreateSubscription(cfg));
        return NotFound;
      }
      r := AddSubscription(cfg);
    }

    method AddSubscription(cfg: Subscription) returns (r: Result<Subscription>)
      requires Valid() && cfg.name !in world.mem.subs && cfg.topic in topics
      modifies this`subscriptions, this`records, this`messages, this`topicSubs, this`file, this`world
      ensures r == Ok(WithDefaults(cfg))
      ensures forall s :: s in records ==> s in old(records) || fresh(s)
      ensures world == Step(old(world), Do(OpCreateSubscription(cfg)))
      ensures Valid()
    {
      hide WorldOk, OnDisk, Step, WellFormed, SubsAre, QueuesAre;
      var ackDeadline := cfg.ackDeadlineSeconds;
      if ackDeadline <= 0 {
        ackDeadline := 10;
      }
      var value := cfg.(ackDeadlineSeconds := ackDeadline);
      var sub := new SubscriptionRecord(value);
      Attach(sub, world.mem);
      assert PubSubState.CreateSubscription(world.mem, value) == Exec(world.mem, OpCreateSubscription(cfg));
      hide PubSubState.CreateSubscription, Exec;
      Persist(OpCreateSubscription(cfg));
      r := Ok(value);
    }

    method Attach(sub: SubscriptionRecord, ghost st: State)
      requires Holds(st) && sub.topic in st.topics && sub.name !in st.subs && sub.ackDeadlineSeconds > 0
      modifies this`subscriptions, this`records, this`messages, this`topicSubs
      ensures records == old(records) + {sub}
      ensures Holds(PubSubState.CreateSubscription(st, sub.Value()))
    {
      hide SubsAre, QueuesAre;
      SubsAreWith(subscriptions, records, st.subs, sub);
      QueuesAreWith(messages, cells, st.queues, sub.name);
      subscriptions := subscriptions[sub.name := sub];
      records := records + {sub};
      messages := messages[sub.name := map[]];
      AddToIndex(sub.topic, sub.name);
    }

    method AddToIndex(topic: string, name: string)
      modifies this`topicSubs
      ensures topicSubs == old(topicSubs)[topic := (if topic in old(topicSubs) then old(topicSubs)[topic] else {}) + {name}]
    {
      if topic !in topicSubs {
        topicSubs := topicSubs[topic := {}];
      }
      topicSubs := topicSubs[topic := topicSubs[topic] + {name}];
    }

    method DeleteSubscription(name: string) returns (r: Result<()>)
      requires Valid()
      modifies this`subscriptions, this`messages, this`topicSubs, this`file, this`world
      ensures r == if name in old(subscriptions) then Ok(()) else NotFound
      ensures world == Step(old(world), Do(OpDeleteSubscription(name)))
      ensures Valid()
    {
      assert subscriptions.Keys == world.mem.subs.Keys == messages.Keys;
      hide WorldOk, OnDisk, Step, WellFormed, SubsAre, QueuesAre;
      if name !in subscriptions {
        Refused(world, OpDeleteSubscription(name));
        return NotFound;
      }
      Detach(name, world.mem);
      Persist(OpDeleteSubscription(name));
      r := Ok(());
    }

    method Detach(name: string, ghost st: State)
      requires Holds(st) && name in st.subs
      modifies this`subscriptions, this`messages, this`topicSubs
      ensures Holds(PubSubState.DeleteSubscription(st, name))
    {
      hide SubsAre, QueuesAre;
      SubAt(name, st);
      var sub := subscriptions[name];
      SubsAreWith(subscriptions, records, st.subs, sub);
      QueuesAreWith(messages, cells, st.queues, name);
      if sub.topic in topicSubs {
        topicSubs := topicSubs[sub.topic := topicSubs[sub.topic] - {name}];
      }
      subscriptions := subscriptions - {name};
      messages := messages - {name};
    }

    lemma SubAt(name: string, st: State)
      requires Holds(st) && name in st.subs
      ensures name in subscriptions && subscriptions[name].name == name && subscriptions[name].Value() == st.subs[name]
    {
      hide QueuesAre;
    }

    // ----- publishing -----

    /** Queues a new message on every existing subscription that the index lists for the topic. */
    method FanOut(topic: string, id: string, p: Payload, now: int, ghost st: State)
      requires Holds(st) && st.queues.Keys == st.subs.Keys
      modifies this`messages, this`cells
      ensures forall m :: m in cells ==> m in old(cells) || fresh(m)
      ensures OthersStay(old(messages), messages, id)
      ensures QueuesAre(messages, cells, PubSubState.FanOut(st.queues, Recipients(st, topic), id, p, now))
    {
      hide SubsAre, QueuesAre, OthersStay, PubSubState.FanOut;
      ghost var recipients := Recipients(st, topic);
      KeysHere(st);
      FanOutToNone(st.queues, recipients, id, p, now);
      OthersStayPut(messages, id);
      if topic in topicSubs {
        var todo := topicSubs[topic];
        assert recipients == todo;
        while todo != {}
          invariant todo <= recipients
          invariant forall m :: m in cells ==> m in old(cells) || fresh(m)
          invariant OthersStay(old(messages), messages, id)
          invariant QueuesAre(messages, cells, PubSubState.FanOut(st.queues, recipients - todo, id, p, now))
          decreases |todo|
        {
          var s := AnyOf(todo);
          FanOutStep(st.queues, recipients, todo, s, id, p, now);
          if s in subscriptions {
            Enqueue(s, id, p, now, old(messages), PubSubState.FanOut(st.queues, recipients - todo, id, p, now));
          }
          todo := todo - {s};
        }
        assert recipients - todo == recipients;
      }
    }

    lemma KeysHere(st: State)
      requires Holds(st)
      ensures subscriptions.Keys == st.subs.Keys
    {}

    method Enqueue(sub: string, id: string, p: Payload, now: int, ghost before: map<string, HeapQueue>,
                   ghost v: map<string, Queue>)
      requires QueuesAre(messages, cells, v) && sub in v && OthersStay(before, messages, id)
      modifies this`messages, this`cells
      ensures forall m :: m in cells ==> m in old(cells) || fresh(m)
      ensures OthersStay(before, messages, id)
      ensures QueuesAre(messages, cells, v[sub := v[sub][AckID(sub, id) := Fresh(sub, id, p, now)]])
    {
      hide QueuesAre, AckID, OthersStay;
      var ackID := AckID(sub, id);
      var m := new QueuedMessage(sub, Fresh(sub, id, p, now));
      QueuesAreWithMessage(messages, cells, v, sub, m);
      OthersStayWith(before, messages, sub, id, m);
      var q: HeapQueue := if sub in messages then messages[sub] else map[];
      messages := messages[sub := q[ackID := m]];
      cells := cells + {m};
    }

    method Publish(topic: string, msgs: seq<Payload>, now: int) returns (r: Result<seq<string>>)
      requires Valid()
      modifies this`messages, this`cells, this`msgCounter, this`file, this`world
      ensures topic !in topics ==> r == NotFound
      ensures topic in topics ==> r.Ok? && E.Published(old(world.mem), world.mem, topic, msgs, now, r.value)
      ensures forall m :: m in cells ==> m in old(cells) || fresh(m)
      ensures world == Step(old(world), Do(OpPublish(topic, msgs, now)))
      ensures Valid()
    {
      assert world.mem.queues.Keys == world.mem.subs.Keys;
      hide WorldOk, OnDisk, Step;
      if topic !in topics {
        Refused(world, OpPublish(topic, msgs, now));
        return NotFound;
      }
      Counted();
      hide E.Published;
      var ids := PublishEach(topic, msgs, now, world.mem);
      E.AllPublished(world.mem, topic, msgs, now, ids);
      Persist(OpPublish(topic, msgs, now));
      r := Ok(ids);
    }

    lemma Counted()
      requires Valid()
      ensures msgCounter == world.mem.counter
    {}

    /** Publishes one message, and returns its ID. */
    method PublishOnto(topic: string, p: Payload, now: int, ghost st: State) returns (id: string)
      requires Holds(st) && st.queues.Keys == st.subs.Keys
      modifies this`messages, this`cells, this`msgCounter
      ensures msgCounter == old(msgCounter) + 1 && id == Decimal(msgCounter)
      ensures forall m :: m in cells ==> m in old(cells) || fresh(m)
      ensures OthersStay(old(messages), messages, id)
      ensures Holds(PublishOne(st, topic, p, now))
    {
      hide SubsAre, QueuesAre, OthersStay, PubSubState.FanOut;
      msgCounter := msgCounter + 1;
      id := Decimal(msgCounter);
      FanOut(topic, id, p, now, st.(counter := msgCounter));
    }

    method PublishEach(topic: string, msgs: seq<Payload>, now: int, ghost st: State) returns (ids: seq<string>)
      requires Holds(st) && st.queues.Keys == st.subs.Keys
      modifies this`messages, this`cells, this`msgCounter
      ensures E.AreNext(ids, old(msgCounter), |msgs|)
      ensures forall m :: m in cells ==> m in old(cells) || fresh(m)
      ensures Holds(PublishAll(st, topic, msgs, now))
    {
      hide SubsAre, QueuesAre, PublishAll;
      PublishNone(st, topic, msgs, now);
      ids := [];
      ghost var cur := st;
      for i := 0 to |msgs|
        invariant E.AreNext(ids, old(msgCounter), i)
        invariant forall m :: m in cells ==> m in old(cells) || fresh(m)
        invariant Holds(cur) && cur.queues.Keys == cur.subs.Keys && cur.counter == old(msgCounter) + i
        invariant PublishAll(cur, topic, msgs[i..], now) == PublishAll(st, topic, msgs, now)
      {
        PublishNext(cur, topic, msgs, i, now);
        var id := PublishOnto(topic, msgs[i], now, cur);
        ids := ids + [id];
        cur := PublishOne(cur, topic, msgs[i], now);
      }
      PublishNone(cur, topic, msgs, now);
    }

    // ----- taking messages off -----

    method Acknowledge(sub: string, ackIDs: seq<string>) returns (r: Result<()>)
      requires Valid()
      modifies this`messages, this`file, this`world
      ensures r == if sub in subscriptions then Ok(()) else NotFound
      ensures StaysBut(old(messages), messages, sub, ackIDs)
      ensures world == Step(old(world), Do(OpAcknowledge(sub, ackIDs)))
      ensures Valid()
    {
      assert subscriptions.Keys == world.mem.subs.Keys;
      hide WorldOk, Step, StaysBut;
      if sub !in subscriptions {
        StaysPut(messages, sub, ackIDs);
        Refused(world, OpAcknowledge(sub, ackIDs));
        return NotFound;
      }
      TakeOff(sub, ackIDs);
      r := Ok(());
    }

    method TakeOff(sub: string, ackIDs: seq<string>)
      requires Valid() && sub in world.mem.subs
      modifies this`messages, this`file, this`world
      ensures StaysBut(old(messages), messages, sub, ackIDs)
      ensures world == Step(old(world), Do(OpAcknowledge(sub, ackIDs)))
      ensures Valid()
    {
      hide *;
      ValidFacts();
      ExecAcknowledge(world.mem, sub, ackIDs);
      DropAll(sub, ackIDs, world.mem);
      Persist(OpAcknowledge(sub, ackIDs));
    }

    lemma ValidFacts()
      requires Valid()
      ensures WorldOk(world) && WellFormed(world.mem) && Holds(world.mem) && (persistent ==> OnDisk(file, world.disk))
      ensures messages.Keys == subscriptions.Keys == world.mem.subs.Keys == world.mem.queues.Keys
    {}

    method DropAll(sub: string, ackIDs: seq<string>, ghost st: State)
      requires Holds(st) && sub in st.queues
      modifies this`messages
      ensures StaysBut(old(messages), messages, sub, ackIDs)
      ensures Holds(WithQueue(st, sub, Without(st.queues[sub], ackIDs)))
    {
      hide SubsAre, StaysBut, Without, QueueIs;
      var q := messages[sub];
      WithoutNone(q, ackIDs);
      for i := 0 to |ackIDs|
        invariant messages == old(messages) && q == Without(messages[sub], ackIDs[..i])
      {
        WithoutNext(messages[sub], ackIDs, i);
        q := q - {ackIDs[i]};
      }
      QueuesAreWithout(messages, cells, st.queues, sub, ackIDs);
      StaysWithout(messages, sub, ackIDs);
      messages := messages[sub := q];
    }

    method ForwardToDeadLetter(sub: string, ackID: string, now: int) returns (forwarded: bool)
      requires Valid()
      modifies this`messages, this`cells, this`msgCounter, this`file, this`world
      ensures forwarded <==> CanForward(old(world.mem), sub, ackID)
      ensures forall m :: m in cells ==> m in old(cells) || fresh(m)
      ensures StaysBut(old(messages), messages, sub, [ackID])
      ensures world == Step(old(world), Do(OpForward(sub, ackID, now)))
      ensures Valid()
    {
      assert CanForwardHere(sub, ackID) <==> CanForward(world.mem, sub, ackID);
      hide WorldOk, Step, StaysBut, CanForward;
      forwarded := CanForwardHere(sub, ackID);
      if forwarded {
        MoveOver(sub, ackID, now);
      } else {
        StaysPut(messages, sub, [ackID]);
        Refused(world, OpForward(sub, ackID, now));
      }
    }

    /** The checks before a forward. */
    predicate CanForwardHere(sub: string, ackID: string)
      reads this
    {
      && sub in subscriptions && subscriptions[sub].deadLetterTopic != ""
      && sub in messages && ackID in messages[sub]
      && subscriptions[sub].deadLetterTopic in topics
    }

    method MoveOver(sub: string, ackID: string, now: int)
      requires Valid() && CanForward(world.mem, sub, ackID)
      modifies this`messages, this`cells, this`msgCounter, this`file, this`world
      ensures forall m :: m in cells ==> m in old(cells) || fresh(m)
      ensures StaysBut(old(messages), messages, sub, [ackID])
      ensures world == Step(old(world), Do(OpForward(sub, ackID, now)))
      ensures Valid()
    {
      hide *;
      ExecForward(world.mem, sub, ackID, now);
      ValidFacts();
      Move(sub, ackID, now, world.mem);
      Persist(OpForward(sub, ackID, now));
    }

    lemma MoveFacts(sub: string, ackID: string, st: State)
      requires Holds(st) && WellFormed(st) && CanForward(st, sub, ackID)
      ensures st.queues.Keys == st.subs.Keys && msgCounter == st.counter
      ensures sub in subscriptions && subscriptions[sub].deadLetterTopic == st.subs[sub].deadLetterTopic
      ensures sub in st.queues && ackID in st.queues[sub] && sub in messages && ackID in messages[sub]
      ensures messages[sub][ackID].ackID == ackID && messages[sub][ackID].payload == st.queues[sub][ackID].payload
      ensures Unused(messages, Decimal(st.counter + 1))
    {
      hide IndexSound, IndexComplete, SubsOk, QueuesOk, AckID, Decimal, Unused;
      NextIsUnusedHere(st);
      SubAt(sub, st);
      Apart(sub, st);
    }

    lemma NextIsUnusedHere(st: State)
      requires Holds(st) && WellFormed(st)
      ensures Unused(messages, Decimal(st.counter + 1))
    {
      hide WellFormed, AckID, SubsAre;
      forall s | s in messages ensures messages[s].Keys == st.queues[s].Keys && NthAckID(s, st.counter + 1) !in st.queues[s] {
        NextIsUnused(st, s, 1);
      }
    }

    method Move(sub: string, ackID: string, now: int, ghost st: State)
      requires Holds(st) && WellFormed(st) && CanForward(st, sub, ackID)
      modifies this`messages, this`cells, this`msgCounter
      ensures forall m :: m in cells ==> m in old(cells) || fresh(m)
      ensures StaysBut(old(messages), messages, sub, [ackID])
      ensures Holds(Forward(st, sub, ackID, now))
    {
      hide *;
      MoveFacts(sub, ackID, st);
      ForwardedState(st, sub, ackID, now);
      var topic, m := subscriptions[sub].deadLetterTopic, messages[sub][ackID];
      ghost var before := messages;
      var id := PublishOnto(topic, m.payload, now, st);
      StaysThenWithout(before, messages, sub, ackID, id);
      Drop(sub, m.ackID, PublishOne(st, topic, m.payload, now));
    }

    method Drop(sub: string, ackID: string, ghost st: State)
      requires Holds(st) && sub in st.queues
      modifies this`messages
      ensures sub in old(messages) && messages == old(messages)[sub := old(messages)[sub] - {ackID}]
      ensures Holds(WithQueue(st, sub, st.queues[sub] - {ackID}))
    {
      hide SubsAre, QueueIs;
      QueuesAreWithout(messages, cells, st.queues, sub, [ackID]);
      WithoutOne(messages[sub], ackID);
      WithoutOne(st.queues[sub], ackID);
      messages := messages[sub := messages[sub] - {ackID}];
    }

    // ----- push -----

    /** Lists each push subscription once, in the order of the map's iteration. */
    method PushSubscriptions() returns (subs: seq<SubscriptionRecord>)
      requires Valid()
      ensures forall s :: s in subs <==> s.name in subscriptions && subscriptions[s.name] == s && s.pushEndpoint != ""
      ensures forall i, j :: 0 <= i < j < |subs| ==> subs[i].name != subs[j].name
    {
      hide *;
      NamesAreKeys();
      subs := [];
      var todo := subscriptions.Keys;
      while todo != {}
        invariant todo <= subscriptions.Keys
        invariant forall s :: s in subs <==>
                    s.name in subscriptions && s.name !in todo && subscriptions[s.name] == s && s.pushEndpoint != ""
        invariant forall i :: 0 <= i < |subs| ==> subs[i] in subs
        invariant forall i, j :: 0 <= i < j < |subs| ==> subs[i].name != subs[j].name
        decreases |todo|
      {
        var name := AnyOf(todo);
        if subscriptions[name].pushEndpoint != "" {
          subs := subs + [subscriptions[name]];
        }
        todo := todo - {name};
      }
    }

    lemma NamesAreKeys()
      requires Valid()
      ensures forall name :: name in subscriptions ==> subscriptions[name].name == name
    {}

    // ----- leases -----

    /** The available messages of a subscription, by ID. */
    method Available(sub: string, now: int, ghost v: Queue) returns (found: map<string, QueuedMessage>)
      requires sub in messages && QueueIs(sub, messages[sub], v) && KeyedByID(sub, v)
      ensures found.Keys == AvailableIDs(v, now) && Finds(sub, messages[sub], found)
    {
      hide AckID, KeyedByID;
      found := map[];
      var q := messages[sub];
      var todo := q.Keys;
      while todo != {}
        invariant todo <= q.Keys
        invariant found.Keys == set a | a in q && a !in todo && PubSubState.Available(v[a], now) :: v[a].id
        invariant Finds(sub, q, found)
        decreases |todo|
      {
        var a := AnyOf(todo);
        var m := q[a];
        if !m.delivered || now > m.ackDeadline {
          AckIDOf(sub, v, a);
          found := found[m.id := m];
        }
        todo := todo - {a};
      }
    }

    /** Delivers up to `max` messages, in the order of their IDs as strings. */
    method Pull(sub: string, max: int, now: int) returns (r: Result<seq<QueuedMessage>>)
      requires Valid()
      modifies cells, this`file, this`world
      ensures if sub !in subscriptions then r == NotFound
              else sub in messages && r.Ok? && Hands(sub, messages[sub], r.value, PulledIDs(old(world.mem), sub, max, now))
      ensures world == Step(old(world), Do(OpPull(sub, max, now)))
      ensures Valid()
    {
      hide WorldOk, WellFormed, Exec, Step, Persists, OnDisk, SubsAre, QueuesAre, QueueIs;
      hide Store.HoldsBut, Store.Holds, Store.Valid;
      hide Hands, PulledIDs, Pulled, LeaseEach, PubSubState.Candidates, Take, KeyedByID;
      ValidFacts();
      ghost var op := OpPull(sub, max, now);
      PersistsQueueOp(world.mem, op);
      if sub !in subscriptions {
        Refused(world, op);
        return NotFound;
      }
      ghost var st := world.mem;
      Apart(sub, st);
      SubHere(sub, st);
      var candidates := Candidates(sub, now, st.queues[sub]);
      var ms := Deliver(sub, candidates, max, now, subscriptions[sub].ackDeadlineSeconds, false, st.queues[sub]);
      ExecPull(st, sub, max, now);
      LeaseEachIsPulled(st.queues[sub], PulledIDs(st, sub, max, now), now, st.subs[sub].ackDeadlineSeconds);
      Together(sub, st, Pulled(st.queues[sub], PulledIDs(st, sub, max, now), now, st.subs[sub].ackDeadlineSeconds));
      Persist(op);
      r := Ok(ms);
    }

    /** Delivers every available message and counts an attempt for it. Nothing is written to disk. */
    method PullAllUndelivered(sub: string, now: int) returns (ms: seq<QueuedMessage>)
      requires Valid()
      modifies cells, this`world
      ensures if sub !in subscriptions then ms == []
              else sub in messages && sub in old(world.mem.queues) &&
                   Hands(sub, messages[sub], ms, PubSubState.Candidates(old(world.mem.queues[sub]), now))
      ensures world == Step(old(world), Do(OpPullAll(sub, now)))
      ensures Valid()
    {
      hide WorldOk, WellFormed, Exec, Step, Persists, OnDisk, SubsAre, QueuesAre, QueueIs;
      hide Store.HoldsBut, Store.Holds, Store.Valid;
      hide Hands, Pulled, AllPulled, LeaseEach, PubSubState.Candidates, Take, KeyedByID;
      ValidFacts();
      ghost var op, st := OpPullAll(sub, now), world.mem;
      ExecPullAll(st, sub, now);
      if sub !in subscriptions {
        SkippedPullAll(world, sub, now);
        return [];
      }
      Apart(sub, st);
      SubHere(sub, st);
      var candidates := Candidates(sub, now, st.queues[sub]);
      ms := Deliver(sub, candidates, |candidates|, now, subscriptions[sub].ackDeadlineSeconds, true, st.queues[sub]);
      HandsLength(sub, messages[sub], candidates, PubSubState.Candidates(st.queues[sub], now));
      TakeAll(PubSubState.Candidates(st.queues[sub], now));
      LeaseEachIsAllPulled(sub, st.queues[sub], now, st.subs[sub].ackDeadlineSeconds);
      Together(sub, st, AllPulled(st.queues[sub], now, st.subs[sub].ackDeadlineSeconds));
      Conclude(op);
    }

    /** Ends an operation that is not written to disk. */
    ghost method Conclude(op: Op)
      requires WorldOk(world) && Holds(Exec(world.mem, op))
      requires !Persists(world.mem, op) && (persistent ==> OnDisk(file, world.disk))
      modifies this`world
      ensures Valid() && world == Step(old(world), Do(op))
    {
      hide WorldOk, Exec, Persists, OnDisk, SubsAre;
      StepOk(world, Do(op));
      world := Step(world, Do(op));
    }

    lemma SubHere(sub: string, st: State)
      requires Holds(st) && WellFormed(st) && sub in st.subs && sub in st.queues
      ensures sub in subscriptions && subscriptions[sub].ackDeadlineSeconds == st.subs[sub].ackDeadlineSeconds
      ensures KeyedByID(sub, st.queues[sub])
    {
      QueueKeyed(sub, st);
    }

    /** The available messages in the order of their IDs. */
    method Candidates(sub: string, now: int, ghost v: Queue) returns (candidates: seq<QueuedMessage>)
      requires sub in messages && QueueIs(sub, messages[sub], v) && KeyedByID(sub, v)
      ensures Hands(sub, messages[sub], candidates, PubSubState.Candidates(v, now))
    {
      hide AckID, KeyedByID, QueueIs, PubSubState.Available, AvailableIDs, Hands, Finds;
      var found := Available(sub, now, v);
      var ids := SortStrings(found.Keys);
      candidates := [];
      ghost var q := messages[sub];
      HandsNone(sub, q, ids);
      for i := 0 to |ids|
        invariant Hands(sub, q, candidates, ids[..i])
      {
        FoundOne(sub, q, found, ids[i]);
        HandsNext(sub, q, candidates, ids, i, found[ids[i]]);
        candidates := candidates + [found[ids[i]]];
      }
    }

    /** Delivers the first `max` candidates, in place. A push also counts as an attempt. */
    method Deliver(sub: string, candidates: seq<QueuedMessage>, max: int, now: int, seconds: int, push: bool,
                   ghost v: Queue)
      returns (result: seq<QueuedMessage>)
      requires sub in messages && QueueIs(sub, messages[sub], v) && KeyedByID(sub, v)
      requires Hands(sub, messages[sub], candidates, PubSubState.Candidates(v, now))
      modifies CellsOf(messages[sub])
      ensures Hands(sub, messages[sub], result, Take(PubSubState.Candidates(v, now), max))
      ensures QueueIs(sub, messages[sub], LeaseEach(v, Take(PubSubState.Candidates(v, now), max), now, seconds, push))
    {
      hide AckID, KeyedByID, LeaseEach, QueueIs, AvailableIDs, Hands, Take;
      ghost var q, ids := messages[sub], PubSubState.Candidates(v, now);
      HandsLength(sub, q, candidates, ids);
      LeaseNone(v, ids, now, seconds, push);
      HandsNone(sub, q, ids);
      result := [];
      for i := 0 to |candidates|
        invariant |result| == i && (i <= max || i == 0)
        invariant Hands(sub, q, result, ids[..i])
        invariant QueueIs(sub, q, LeaseEach(v, ids[..i], now, seconds, push))
      {
        if |result| >= max { break; }
        var m := candidates[i];
        HandsOne(sub, q, candidates, ids, i);
        AscendingDistinct(ids, i);
        LeaseNext(sub, q, m, ids, i, now, seconds, push, v);
        HandsNext(sub, q, result, ids, i, m);
        result := result + [m];
      }
      TakeIs(ids, max, |result|);
    }

    method LeaseNext(sub: string, ghost q: HeapQueue, m: QueuedMessage, ghost ids: seq<string>, ghost i: nat,
                     now: int, seconds: int, push: bool, ghost v: Queue)
      requires KeyedByID(sub, v) && i < |ids| && m.ackID == AckID(sub, ids[i]) && m.id == ids[i] && ids[i] !in ids[..i]
      requires QueueIs(sub, q, LeaseEach(v, ids[..i], now, seconds, push)) && m.ackID in q && q[m.ackID] == m
      modifies m
      ensures QueueIs(sub, q, LeaseEach(v, ids[..i + 1], now, seconds, push))
    {
      hide AckID, KeyedByID, LeaseEach, Lease, QueueIs;
      SameID(sub, q, v, ids[..i], m, now, seconds, push);
      LeasedNext(sub, v, ids, i, now, seconds, push);
      LeaseAt(sub, q, m, now, seconds, push, LeaseEach(v, ids[..i], now, seconds, push));
    }

    /** Delivers one message. */
    method LeaseAt(sub: string, ghost q: HeapQueue, m: QueuedMessage, now: int, seconds: int, push: bool,
                   ghost v: Queue)
      requires QueueIs(sub, q, v) && m.ackID in q && q[m.ackID] == m
      modifies m
      ensures m.ackID in v && QueueIs(sub, q, v[m.ackID := Lease(v[m.ackID], now, seconds, push)])
    {
      m.delivered := true;
      if push {
        m.attempt := m.attempt + 1;
      }
      m.ackDeadline := now + seconds * SECOND;
    }

    method ModifyAckDeadline(sub: string, ackIDs: seq<string>, seconds: int, now: int) returns (r: Result<()>)
      requires Valid()
      modifies cells, this`file, this`world
      ensures r == if sub in subscriptions then Ok(()) else NotFound
      ensures world == Step(old(world), Do(OpModifyAckDeadline(sub, ackIDs, seconds, now)))
      ensures Valid()
    {
      hide WorldOk, WellFormed, Exec, Step, Persists, OnDisk, SubsAre, QueuesAre, QueueIs;
      hide Store.HoldsBut, Store.Holds, Store.Valid;
      hide Redeadlined;
      ValidFacts();
      ghost var op := OpModifyAckDeadline(sub, ackIDs, seconds, now);
      PersistsQueueOp(world.mem, op);
      if sub !in subscriptions {
        Refused(world, op);
        return NotFound;
      }
      ghost var v := world.mem.queues[sub];
      Apart(sub, world.mem);
      Relet(sub, ackIDs, seconds, now, v);
      Together(sub, world.mem, Redeadlined(v, ackIDs, seconds, now));
      ExecModifyAckDeadline(world.mem, sub, ackIDs, seconds, now);
      Persist(op);
      r := Ok(());
    }

    /** Sets the deadlines of the listed messages, in place. */
    method Relet(sub: string, ackIDs: seq<string>, seconds: int, now: int, ghost v: Queue)
      requires sub in messages && QueueIs(sub, messages[sub], v)
      modifies CellsOf(messages[sub])
      ensures QueueIs(sub, messages[sub], Redeadlined(v, ackIDs, seconds, now))
    {
      var q := messages[sub];
      for i := 0 to |ackIDs|
        invariant forall a :: a in q ==>
                    q[a].Value() == if a in ackIDs[..i] then PubSubState.Redeadline(v[a], seconds, now) else v[a]
      {
        if ackIDs[i] in q {
          var m := q[ackIDs[i]];
          if seconds == 0 {
            m.ackDeadline := ZERO_TIME;
            m.delivered := false;
          } else {
            m.ackDeadline := now + seconds * SECOND;
          }
        }
        assert ackIDs[..i + 1] == ackIDs[..i] + [ackIDs[i]];
      }
      assert ackIDs[..|ackIDs|] == ackIDs;
    }

    /** The messages of one subscription can be edited without a look at the others. */
    lemma Apart(sub: string, st: State)
      requires Holds(st) && sub in st.queues
      ensures sub in messages && QueueIs(sub, messages[sub], st.queues[sub]) && CellsOf(messages[sub]) <= cells
      ensures HoldsBut(sub, st) && CellsOf(messages[sub]) !! OtherCells(cells, sub)
      ensures forall o: object :: o in CellsOf(messages[sub]) ==> o != this && o !in records
    {}

    lemma Together(sub: string, st: State, q: Queue)
      requires HoldsBut(sub, st) && sub in messages && QueueIs(sub, messages[sub], q) && CellsOf(messages[sub]) <= cells
      ensures Holds(WithQueue(st, sub, q))
    {}

    /** The heap holds the state, but for the queue of `sub`. */
    ghost predicate HoldsBut(sub: string, st: State)
      reads this, records, OtherCells(cells, sub)
    {
      && topics == st.topics && topicSubs == st.topicSubs && msgCounter == st.counter
      && SubsAre(subscriptions, records, st.subs) && messages.Keys == st.queues.Keys
      && forall s :: s in messages && s != sub ==>
           CellsOf(messages[s]) <= OtherCells(cells, sub) && QueueIs(s, messages[s], st.queues[s])
    }
  }

  ghost function OtherCells(cells: set<QueuedMessage>, sub: string): set<QueuedMessage> {
    set m | m in cells && m.sub != sub
  }

  /** Messages are queued under the ack IDs of their IDs. */
  ghost predicate KeyedByID(sub: string, q: Queue) {
    forall a :: a in q ==> a == AckID(sub, q[a].id)
  }

  lemma QueueKeyed(sub: string, st: State)
    requires WellFormed(st) && sub in st.queues
    ensures KeyedByID(sub, st.queues[sub])
  {
    assert QueueOk(sub, st.queues[sub], st.counter);
  }

  /** The messages `found`, by ID, are in the queue. */
  ghost predicate Finds(sub: string, q: HeapQueue, found: map<string, QueuedMessage>) {
    forall id :: id in found ==>
      && found[id].id == id && found[id].ackID == AckID(sub, id)
      && AckID(sub, id) in q && q[AckID(sub, id)] == found[id]
  }

  lemma AckIDOf(sub: string, q: Queue, a: string)
    requires KeyedByID(sub, q) && a in q
    ensures a == AckID(sub, q[a].id)
  {
    hide AckID;
  }

  /** `ms` are the messages of `q` with the IDs `ids`, in that order. */
  ghost predicate Hands(sub: string, q: HeapQueue, ms: seq<QueuedMessage>, ids: seq<string>) {
    && |ms| == |ids|
    && forall i :: 0 <= i < |ids| ==>
         AckID(sub, ids[i]) in q && ms[i] == q[AckID(sub, ids[i])] && ms[i].id == ids[i] && ms[i].ackID == AckID(sub, ids[i])
  }

  lemma {:induction false} FoundOne(sub: string, q: HeapQueue, found: map<string, QueuedMessage>, id: string)
    requires Finds(sub, q, found) && id in found
    ensures var m := found[id]; m.id == id && m.ackID == AckID(sub, id) && m.ackID in q && q[m.ackID] == m
  {}

  lemma TakeAll(ids: seq<string>)
    ensures Take(ids, |ids|) == ids
  {}

  lemma AscendingDistinct(ids: seq<string>, i: nat)
    requires IsAscending(ids) && i < |ids|
    ensures ids[i] !in ids[..i]
  {
    CompareAntisymmetric(ids[i], ids[i]);
  }

  lemma TakeIs(ids: seq<string>, max: int, n: nat)
    requires n <= |ids| && (n <= max || n == 0) && (n < |ids| ==> n >= max)
    ensures ids[..n] == Take(ids, max)
  {}

  lemma HandsLength(sub: string, q: HeapQueue, ms: seq<QueuedMessage>, ids: seq<string>)
    requires Hands(sub, q, ms, ids)
    ensures |ms| == |ids|
  {}

  lemma HandsOne(sub: string, q: HeapQueue, ms: seq<QueuedMessage>, ids: seq<string>, i: nat)
    requires Hands(sub, q, ms, ids) && i < |ids|
    ensures i < |ms| && ms[i].id == ids[i] && ms[i].ackID == AckID(sub, ids[i]) && ms[i].ackID in q && q[ms[i].ackID] == ms[i]
  {}

  lemma ExecPullAll(st: State, sub: string, now: int)
    ensures !Persists(st, OpPullAll(sub, now))
    ensures sub in st.subs && sub in st.queues ==>
              Exec(st, OpPullAll(sub, now)) ==
              WithQueue(st, sub, AllPulled(st.queues[sub], now, st.subs[sub].ackDeadlineSeconds))
  {
    hide AllPulled, WithQueue;
  }

  lemma SkippedPullAll(w: World, sub: string, now: int)
    requires sub !in w.mem.subs
    ensures Step(w, Do(OpPullAll(sub, now))) == w
  {}

  lemma HandsNone(sub: string, q: HeapQueue, ids: seq<string>)
    ensures Hands(sub, q, [], ids[..0])
    ensures ids[..|ids|] == ids
  {}

  lemma HandsNext(sub: string, q: HeapQueue, ms: seq<QueuedMessage>, ids: seq<string>, i: nat, m: QueuedMessage)
    requires i < |ids| && Hands(sub, q, ms, ids[..i])
    requires m.id == ids[i] && m.ackID == AckID(sub, ids[i]) && m.ackID in q && q[m.ackID] == m
    ensures Hands(sub, q, ms + [m], ids[..i + 1])
  {
    hide AckID;
    forall k | 0 <= k < i ensures ids[..i + 1][k] == ids[..i][k] && AckID(sub, ids[..i][k]) in q {}
  }

  lemma ExecPull(st: State, sub: string, max: int, now: int)
    requires sub in st.subs && sub in st.queues
    ensures PulledIDs(st, sub, max, now) == Take(Candidates(st.queues[sub], now), max)
    ensures Exec(st, OpPull(sub, max, now)) ==
            WithQueue(st, sub, Pulled(st.queues[sub], PulledIDs(st, sub, max, now), now, st.subs[sub].ackDeadlineSeconds))
  {
    hide Take, Pulled, Candidates, WithQueue;
  }

  function Lease(m: Message, now: int, seconds: int, push: bool): Message {
    if push then Attempt(m, now, seconds) else Deliver(m, now, seconds)
  }

  function LeaseEach(q: Queue, ids: seq<string>, now: int, seconds: int, push: bool): Queue {
    map a | a in q :: if q[a].id in ids then Lease(q[a], now, seconds, push) else q[a]
  }

  lemma LeaseEachIsPulled(q: Queue, ids: seq<string>, now: int, seconds: int)
    ensures LeaseEach(q, ids, now, seconds, false) == Pulled(q, ids, now, seconds)
  {
    hide Deliver;
  }

  lemma LeaseEachIsAllPulled(sub: string, q: Queue, now: int, seconds: int)
    requires KeyedByID(sub, q)
    ensures LeaseEach(q, Candidates(q, now), now, seconds, true) == AllPulled(q, now, seconds)
  {
    hide Attempt, AckID, Available;
    forall a | a in q ensures q[a].id in Candidates(q, now) <==> Available(q[a], now) {
      if q[a].id in AvailableIDs(q, now) {
        var b :| b in q && Available(q[b], now) && q[b].id == q[a].id;
      }
    }
  }

  lemma SameID(sub: string, q: HeapQueue, v: Queue, ids: seq<string>, m: QueuedMessage, now: int, seconds: int,
               push: bool)
    requires QueueIs(sub, q, LeaseEach(v, ids, now, seconds, push)) && m.ackID in q && q[m.ackID] == m
    ensures m.ackID in v && v[m.ackID].id == m.id
  {
    assert q[m.ackID].Value() == LeaseEach(v, ids, now, seconds, push)[m.ackID];
  }

  lemma LeaseNone(q: Queue, ids: seq<string>, now: int, seconds: int, push: bool)
    ensures LeaseEach(q, ids[..0], now, seconds, push) == q
    ensures ids[..|ids|] == ids
  {}

  /** Delivering the next message, when the first `i` were delivered. */
  lemma {:induction false} LeasedNext(sub: string, q: Queue, ids: seq<string>, i: nat, now: int, seconds: int, push: bool)
    requires KeyedByID(sub, q) && i < |ids| && ids[i] !in ids[..i]
    requires AckID(sub, ids[i]) in q && q[AckID(sub, ids[i])].id == ids[i]
    ensures var before, a := LeaseEach(q, ids[..i], now, seconds, push), AckID(sub, ids[i]);
            a in before && before[a := Lease(before[a], now, seconds, push)] == LeaseEach(q, ids[..i + 1], now, seconds, push)
  {
    assert ids[..i + 1] == ids[..i] + [ids[i]];
    hide AckID, Lease;
  }

  ghost predicate Within<K, V>(m: map<K, V>, n: map<K, V>) {
    forall k :: k in m ==> k in n && m[k] == n[k]
  }

  lemma UpdatedTwice<K, V>(m: map<K, V>, k: K, v: V, w: V)
    ensures m[k := v][k := w] == m[k := w]
  {}

  function NoMessages(subs: map<string, Subscription>): map<string, Queue> {
    map s | s in subs :: map[]
  }

  lemma NoMessagesWith(messages: map<string, HeapQueue>, cells: set<QueuedMessage>,
                       loaded: map<string, Subscription>, s: Subscription)
    requires QueuesAre(messages, cells, NoMessages(loaded))
    ensures NoMessages(loaded[s.name := s]) == NoMessages(loaded)[s.name := map[]]
    ensures s.name in messages ==> NoMessages(loaded[s.name := s]) == NoMessages(loaded)
  {}

  lemma FileFacts(file: Option<PersistedState>, w: World)
    requires WorldOk(w) && OnDisk(file, w.disk)
    ensures w.disk.queues.Keys == w.disk.subs.Keys
    ensures NoMessages(w.disk.subs).Keys == w.disk.queues.Keys
    ensures forall s :: s in NoMessages(w.disk.subs) ==> NoMessages(w.disk.subs)[s] == map[]
    ensures file.None? ==> Loaded(w.disk) == Empty
    ensures file.Some? ==>
              && file.value.msgCounter == w.disk.counter && ListsTopics(file.value.topics, w.disk.topics)
              && ListsSubs(file.value.subs, w.disk.subs) && ListsQueues(file.value.messages, w.disk.queues)
  {}

  lemma RestartOk(w: World)
    requires WorldOk(w)
    ensures Step(w, Restart) == World(Loaded(w.disk), w.disk) && WorldOk(Step(w, Restart))
  {
    StepOk(w, Restart);
  }

  lemma {:induction false} IndexOfWith(known: set<string>, loaded: map<string, Subscription>, s: Subscription)
    requires s.name in loaded ==> loaded[s.name] == s
    ensures var index, after := IndexOf(known, loaded), IndexOf(known, loaded[s.name := s]);
            after == if s.topic == DELETED then index
                     else index[s.topic := (if s.topic in index then index[s.topic] else {}) + {s.name}]
  {
    hide TopicsOf, SubscribersOf;
    TopicsOfWith(loaded, s);
    if s.topic != DELETED && s.topic !in known + TopicsOf(loaded) { NoSubscribers(loaded, s.topic); }
    SubscribersOfWith(loaded, s, s.topic);
    var index, after := IndexOf(known, loaded), IndexOf(known, loaded[s.name := s]);
    assert after.Keys == index.Keys + if s.topic == DELETED then {} else {s.topic};
    forall t | t in index && t != s.topic ensures after[t] == index[t] {
      SubscribersOfWith(loaded, s, t);
    }
  }

  lemma IndexOfNone(known: set<string>)
    ensures IndexOf(known, map[]) == map t | t in known :: {}
  {
    assert TopicsOf(map[]) == {};
    assert forall t :: SubscribersOf(map[], t) == {};
  }

  lemma TopicsOfWith(subs: map<string, Subscription>, s: Subscription)
    requires s.name in subs ==> subs[s.name] == s
    ensures TopicsOf(subs[s.name := s]) == TopicsOf(subs) + if s.topic == DELETED then {} else {s.topic}
  {
    var after := subs[s.name := s];
    forall t | t in TopicsOf(subs) ensures t in TopicsOf(after) {
      var name :| name in subs && subs[name].topic != DELETED && subs[name].topic == t;
      assert after[name] == subs[name];
    }
    if s.topic != DELETED { assert after[s.name].topic == s.topic; }
  }

  lemma SubscribersOfWith(subs: map<string, Subscription>, s: Subscription, t: string)
    requires s.name in subs ==> subs[s.name] == s
    ensures SubscribersOf(subs[s.name := s], t) == SubscribersOf(subs, t) + if t == s.topic then {s.name} else {}
  {}

  lemma NoSubscribers(subs: map<string, Subscription>, t: string)
    requires t !in TopicsOf(subs) && t != DELETED
    ensures SubscribersOf(subs, t) == {}
  {
    forall name | name in subs ensures subs[name].topic != t {
      if subs[name].topic != DELETED { assert subs[name].topic in TopicsOf(subs); }
    }
  }

  lemma ExecModifyAckDeadline(st: State, sub: string, ackIDs: seq<string>, seconds: int, now: int)
    requires sub in st.subs && sub in st.queues
    ensures Exec(st, OpModifyAckDeadline(sub, ackIDs, seconds, now)) ==
            WithQueue(st, sub, Redeadlined(st.queues[sub], ackIDs, seconds, now))
  {
    hide Redeadlined;
  }

  lemma PersistsQueueOp(st: State, op: Op)
    requires op.OpPull? || op.OpAcknowledge? || op.OpModifyAckDeadline?
    ensures Persists(st, op) <==> op.sub in st.subs && op.sub in st.queues
  {}

  /** No message has an ack ID of `id`. */
  ghost predicate Unused(messages: map<string, HeapQueue>, id: string) {
    forall s, a :: s in messages && a in messages[s] ==> a != AckID(s, id)
  }

  lemma StaysThenWithout(before: map<string, HeapQueue>, mid: map<string, HeapQueue>, sub: string, ackID: string,
                         id: string)
    requires OthersStay(before, mid, id) && Unused(before, id)
    ensures sub in mid ==> StaysBut(before, mid[sub := mid[sub] - {ackID}], sub, [ackID])
  {
    hide AckID;
  }

  lemma ExecAcknowledge(st: State, sub: string, ackIDs: seq<string>)
    requires sub in st.subs && sub in st.queues
    ensures Exec(st, OpAcknowledge(sub, ackIDs)) == WithQueue(st, sub, Without(st.queues[sub], ackIDs))
    ensures Persists(st, OpAcknowledge(sub, ackIDs))
  {
    AcknowledgedIsWithout(st.queues[sub], ackIDs);
    hide Without;
  }

  lemma StaysWithout(messages: map<string, HeapQueue>, sub: string, ackIDs: seq<string>)
    requires sub in messages
    ensures StaysBut(messages, messages[sub := Without(messages[sub], ackIDs)], sub, ackIDs)
  {}

  lemma ExecForward(st: State, sub: string, ackID: string, now: int)
    ensures Exec(st, OpForward(sub, ackID, now)) == Forward(st, sub, ackID, now)
    ensures Persists(st, OpForward(sub, ackID, now)) == CanForward(st, sub, ackID)
  {
    hide Forward, CanForward;
  }

  lemma {:induction false} ForwardedState(st: State, sub: string, ackID: string, now: int)
    requires WellFormed(st) && CanForward(st, sub, ackID)
    ensures var published := PublishOne(st, st.subs[sub].deadLetterTopic, st.queues[sub][ackID].payload, now);
            && sub in published.queues
            && Forward(st, sub, ackID, now) == WithQueue(published, sub, published.queues[sub] - {ackID})
  {
    assert QueueOk(sub, st.queues[sub], st.counter);
    hide QueueOk, Fresh;
  }

  lemma PublishNext(st: State, topic: string, msgs: seq<Payload>, i: nat, now: int)
    requires i < |msgs|
    ensures PublishAll(st, topic, msgs[i..], now) == PublishAll(PublishOne(st, topic, msgs[i], now), topic, msgs[i + 1..], now)
  {
    assert msgs[i..][0] == msgs[i] && msgs[i..][1..] == msgs[i + 1..];
  }

  lemma PublishNone(st: State, topic: string, msgs: seq<Payload>, now: int)
    ensures PublishAll(st, topic, msgs[|msgs|..], now) == st
    ensures msgs[0..] == msgs
  {
    assert msgs[|msgs|..] == [];
  }

  lemma QueuesAreWithMessage(messages: map<string, HeapQueue>, cells: set<QueuedMessage>, v: map<string, Queue>,
                             sub: string, m: QueuedMessage)
    requires QueuesAre(messages, cells, v) && sub in v && m.sub == sub
    ensures sub in messages
    ensures QueuesAre(messages[sub := messages[sub][m.ackID := m]], cells + {m}, v[sub := v[sub][m.ackID := m.Value()]])
  {
    assert QueueIs(sub, messages[sub][m.ackID := m], v[sub][m.ackID := m.Value()]);
    hide QueueIs;
  }

  /** Every message but those under the ack IDs of `id` is still in its place. */
  ghost predicate OthersStay(before: map<string, HeapQueue>, after: map<string, HeapQueue>, id: string) {
    forall s, a :: s in before && a in before[s] && a != AckID(s, id) ==>
      s in after && a in after[s] && after[s][a] == before[s][a]
  }

  lemma OthersStayPut(messages: map<string, HeapQueue>, id: string)
    ensures OthersStay(messages, messages, id)
  {}

  lemma OthersStayWith(before: map<string, HeapQueue>, messages: map<string, HeapQueue>, sub: string, id: string,
                       m: QueuedMessage)
    requires OthersStay(before, messages, id) && sub in messages
    ensures OthersStay(before, messages[sub := messages[sub][AckID(sub, id) := m]], id)
  {
    hide AckID;
  }

  lemma FanOutToNone(queues: map<string, Queue>, all: set<string>, id: string, p: Payload, now: int)
    ensures FanOut(queues, all - all, id, p, now) == FanOut(queues, {}, id, p, now) == queues
  {
    assert all - all == {};
  }

  lemma {:induction false} FanOutStep(queues: map<string, Queue>, all: set<string>, todo: set<string>, s: string, id: string,
                   p: Payload, now: int)
    requires s in todo && todo <= all
    ensures var before, after := FanOut(queues, all - todo, id, p, now), FanOut(queues, all - (todo - {s}), id, p, now);
            if s in queues then s in before && after == before[s := before[s][AckID(s, id) := Fresh(s, id, p, now)]]
            else after == before
  {
    hide AckID, Fresh;
  }

  /** Every message but those listed, of one subscription, is still in its place. */
  ghost predicate StaysBut(before: map<string, HeapQueue>, after: map<string, HeapQueue>, sub: string,
                           gone: seq<string>) {
    forall s, a :: s in before && a in before[s] && (s != sub || a !in gone) ==>
      s in after && a in after[s] && after[s][a] == before[s][a]
  }

  lemma StaysPut(messages: map<string, HeapQueue>, sub: string, gone: seq<string>)
    ensures StaysBut(messages, messages, sub, gone)
  {}

  function Without<K, V>(m: map<K, V>, gone: seq<K>): map<K, V> {
    m - set k | k in gone
  }

  lemma WithoutOne<K, V>(m: map<K, V>, k: K)
    ensures Without(m, [k]) == m - {k}
  {}

  lemma WithoutNone<K, V>(m: map<K, V>, gone: seq<K>)
    ensures Without(m, gone[..0]) == m
    ensures gone[..|gone|] == gone
  {}

  lemma AcknowledgedIsWithout(q: Queue, ackIDs: seq<string>)
    ensures (map a | a in q && a !in ackIDs :: q[a]) == Without(q, ackIDs)
  {}

  lemma WithoutNext<K, V>(m: map<K, V>, gone: seq<K>, i: nat)
    requires i < |gone|
    ensures Without(m, gone[..i]) - {gone[i]} == Without(m, gone[..i + 1])
  {
    assert gone[..i + 1] == gone[..i] + [gone[i]];
  }

  lemma QueuesAreWithout(messages: map<string, HeapQueue>, cells: set<QueuedMessage>, v: map<string, Queue>,
                         sub: string, gone: seq<string>)
    requires QueuesAre(messages, cells, v) && sub in v
    ensures QueuesAre(messages[sub := Without(messages[sub], gone)], cells, v[sub := Without(v[sub], gone)])
  {
    assert QueueIs(sub, Without(messages[sub], gone), Without(v[sub], gone));
    assert CellsOf(Without(messages[sub], gone)) <= CellsOf(messages[sub]);
    hide QueueIs;
  }
}
