/** Which subscriptions the topic index lists: all but those that a deleted topic, or a restart under the
  reserved name of deleted topics, has left behind. */
module PubSubIndex {
  import opened PubSubState
  import opened PubSubRuns

  /** The live subscriptions that an event leaves without a place in the index: those listed under a topic
    that is deleted, and at a restart those listed under the reserved name. */
  ghost function StraysOf(w: World, strays: set<string>, e: Event): set<string> {
    match e
    case Do(OpDeleteTopic(name)) => strays + if name in w.mem.topics then Recipients(w.mem, name) else {}
    case Do(OpDeleteSubscription(name)) => strays - {name}
    case Do(_) => strays
    case Restart => strays + Recipients(w.mem, DELETED)
  }

  ghost function StraysAfter(w: World, strays: set<string>, es: seq<Event>): set<string>
    decreases es
  {
    if es == [] then strays else StraysAfter(Step(w, es[0]), StraysOf(w, strays, es[0]), es[1..])
  }

  /** The strays are the subscriptions that carry the mark of a deleted topic without being listed under a
    topic of that name. */
  ghost predicate Tracked(st: State, strays: set<string>) {
    forall s :: s in strays <==> s in st.subs && st.subs[s].topic == DELETED && s !in Recipients(st, DELETED)
  }

  lemma TopicOpTracked(st: State, strays: set<string>, op: Op, d: Disk)
    requires WellFormed(st) && Tracked(st, strays)
    requires op.OpCreateTopic? || op.OpDeleteTopic? || op.OpCreateSubscription? || op.OpDeleteSubscription?
    ensures Tracked(Exec(st, op), StraysOf(World(st, d), strays, Do(op)))
  {
    IndexFacts(st);
    hide WellFormed, WithDefaults;
    match op {
      case OpDeleteTopic(name) => DeleteTopicTracked(st, strays, name);
      case OpCreateTopic(_, _) =>
      case OpCreateSubscription(_) =>
      case OpDeleteSubscription(_) =>
    }
  }

  lemma IndexFacts(st: State)
    requires WellFormed(st)
    ensures st.topicSubs.Keys == st.topics.Keys && IndexSound(st)
  {}

  lemma DeleteTopicTracked(st: State, strays: set<string>, name: string)
    requires st.topicSubs.Keys == st.topics.Keys && IndexSound(st) && Tracked(st, strays)
    ensures Tracked(DeleteTopic(st, name), strays + if name in st.topics then Recipients(st, name) else {})
  {}

  lemma QueueOpTracked(st: State, strays: set<string>, op: Op)
    requires WellFormed(st) && Tracked(st, strays)
    requires !(op.OpCreateTopic? || op.OpDeleteTopic? || op.OpCreateSubscription? || op.OpDeleteSubscription?)
    ensures Tracked(Exec(st, op), strays)
  {
    SameIndex(st, op);
    hide WellFormed, Exec, SubscribersOf;
  }

  lemma SameIndex(st: State, op: Op)
    requires !(op.OpCreateTopic? || op.OpDeleteTopic? || op.OpCreateSubscription? || op.OpDeleteSubscription?)
    ensures Exec(st, op).subs == st.subs && Exec(st, op).topicSubs == st.topicSubs
  {
    hide PulledIDs, FanOut;
    if op.OpPublish? { PublishKeepsSubs(st, op.topic, op.inputs, op.now); }
  }

  lemma RestartTracked(w: World, strays: set<string>)
    requires WorldOk(w) && Tracked(w.mem, strays)
    ensures Tracked(Loaded(w.disk), strays + Recipients(w.mem, DELETED))
  {
    LoadedOk(w.mem, w.disk);
    hide WellFormed;
  }

  lemma {:induction false} RunTracked(w: World, strays: set<string>, es: seq<Event>)
    requires WorldOk(w) && Tracked(w.mem, strays)
    ensures WorldOk(RunWorld(w, es)) && Tracked(RunWorld(w, es).mem, StraysAfter(w, strays, es))
    decreases es
  {
    hide WellFormed, InStep, Tracked, Exec;
    if es != [] {
      var e := es[0];
      StepOk(w, e);
      if e.Restart? {
        RestartTracked(w, strays);
      } else if e.op.OpCreateTopic? || e.op.OpDeleteTopic? || e.op.OpCreateSubscription? || e.op.OpDeleteSubscription? {
        TopicOpTracked(w.mem, strays, e.op, w.disk);
      } else {
        QueueOpTracked(w.mem, strays, e.op);
      }
      RunTracked(Step(w, e), StraysOf(w, strays, e), es[1..]);
    }
  }

  /** After any run, restarts included: the index of a topic lists exactly its subscriptions, unless the topic
    has the reserved name and there are strays; and a subscription is out of reach of publishing exactly
    when it is a stray. */
  lemma {:induction false} IndexAgreesExactly(es: seq<Event>)
    ensures var st := RunWorld(Begin, es).mem;
            var strays := StraysAfter(Begin, {}, es);
            && (forall topic :: topic in st.topics ==>
                  topic in st.topicSubs &&
                  (st.topicSubs[topic] == SubscribersOf(st.subs, topic) <==> topic != DELETED || strays == {}))
            && (forall s :: s in st.subs ==> ((forall topic :: s !in Recipients(st, topic)) <==> s in strays))
  {
    BeginOk();
    RunTracked(Begin, {}, es);
    var st := RunWorld(Begin, es).mem;
    var strays := StraysAfter(Begin, {}, es);
    hide RunWorld, StraysAfter, QueueOk;
    forall topic | topic in st.topics
      ensures topic in st.topicSubs
      ensures st.topicSubs[topic] == SubscribersOf(st.subs, topic) <==> topic != DELETED || strays == {}
    {
      if topic != DELETED { IndexAgrees(st, topic); }
    }
    forall s | s in st.subs ensures (forall topic :: s !in Recipients(st, topic)) <==> s in strays {
      ReachedUnlessStray(st, strays, s);
    }
  }

  lemma {:induction false} ReachedUnlessStray(st: State, strays: set<string>, s: string)
    requires WellFormed(st) && Tracked(st, strays) && s in st.subs
    ensures (forall topic :: s !in Recipients(st, topic)) <==> s in strays
  {
    var topic := st.subs[s].topic;
    assert s in SubscribersOf(st.subs, topic);
    hide QueueOk, SubsOk;
    if s !in strays { assert s in Recipients(st, topic); }
  }

  // ---------- a restart that leaves a subscription behind ----------

  /** A subscription of a topic of the reserved name gets what is published there, until a restart. */
  lemma {:induction false} RestartDropsASubscriber(p: Payload)
    ensures var cfg := Subscription("s", DELETED, 10, "", "", 0);
            var setup := [Do(OpCreateTopic(DELETED, map[])), Do(OpCreateSubscription(cfg))];
            var publish := Do(OpPublish(DELETED, [p], 0));
            var before, after := RunWorld(Begin, setup), RunWorld(Begin, setup + [Restart]);
            && Recipients(before.mem, DELETED) == {"s"} && Recipients(after.mem, DELETED) == {}
            && "s" in after.mem.subs && after.mem.subs["s"].topic == DELETED && DELETED in after.mem.topics
            && "s" in Step(before, publish).mem.queues && |Step(before, publish).mem.queues["s"]| == 1
            && "s" in Step(after, publish).mem.queues && Step(after, publish).mem.queues["s"] == map[]
  {
    var cfg := Subscription("s", DELETED, 10, "", "", 0);
    var setup := [Do(OpCreateTopic(DELETED, map[])), Do(OpCreateSubscription(cfg))];
    var before, after := RunWorld(Begin, setup), RunWorld(Begin, setup + [Restart]);
    TwoSteps(setup[0], setup[1]);
    ThreeSteps(setup[0], setup[1], Restart);
    assert setup == [setup[0], setup[1]] && setup + [Restart] == [setup[0], setup[1], Restart];
    SetUp(cfg);
    PublishedTo(before.mem, p);
    PublishedTo(after.mem, p);
  }

  lemma TwoSteps(a: Event, b: Event)
    ensures RunWorld(Begin, [a, b]) == Step(Step(Begin, a), b)
  {
    hide Step;
    assert [a, b][1..] == [b] && [b][1..] == [];
    assert RunWorld(Step(Begin, a), [b]) == RunWorld(Step(Step(Begin, a), b), []);
  }

  lemma ThreeSteps(a: Event, b: Event, c: Event)
    ensures RunWorld(Begin, [a, b, c]) == Step(Step(Step(Begin, a), b), c)
  {
    hide Step;
    assert [a, b, c][1..] == [b, c] && [b, c][1..] == [c] && [c][1..] == [];
    assert RunWorld(Step(Step(Begin, a), b), [c]) == RunWorld(Step(Step(Step(Begin, a), b), c), []);
  }

  /** What publishing one message to the reserved topic does to an empty queue. */
  lemma {:induction false} PublishedTo(st: State, p: Payload)
    requires DELETED in st.topics && "s" in st.queues && st.queues["s"] == map[]
    ensures var next := Exec(st, OpPublish(DELETED, [p], 0));
            && "s" in next.queues
            && |next.queues["s"]| == (if "s" in Recipients(st, DELETED) then 1 else 0)
  {
    var next := PublishOne(st, DELETED, p, 0);
    assert PublishAll(next, DELETED, [p][1..], 0) == next;
  }

  lemma {:induction false} SetUp(cfg: Subscription)
    requires cfg == Subscription("s", DELETED, 10, "", "", 0)
    ensures var w := Step(Step(Begin, Do(OpCreateTopic(DELETED, map[]))), Do(OpCreateSubscription(cfg)));
            && Recipients(w.mem, DELETED) == {"s"} && DELETED in w.mem.topics
            && "s" in w.mem.subs && w.mem.subs["s"].topic == DELETED && "s" in w.mem.queues && w.mem.queues["s"] == map[]
            && var l := Step(w, Restart);
               && Recipients(l.mem, DELETED) == {} && DELETED in l.mem.topics
               && "s" in l.mem.subs && l.mem.subs["s"].topic == DELETED && "s" in l.mem.queues && l.mem.queues["s"] == map[]
  {}
}
