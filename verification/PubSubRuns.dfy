/** What holds over whole runs of the Pub/Sub emulator, across restarts: ack IDs are never reused, and a
  subscription's queue is what was enqueued less what was acknowledged or dead-lettered. */
module PubSubRuns {
  import opened Wrappers
  import opened Text
  import opened PubSubState

  // ---------- memory and disk ----------

  datatype World = World(mem: State, disk: Disk)

  datatype Event = Do(op: Op) | Restart

  const Begin: World := World(Empty, Persisted(Empty))

  ghost function Step(w: World, e: Event): World {
    match e
    case Do(op) => World(Exec(w.mem, op), if Persists(w.mem, op) then Persisted(Exec(w.mem, op)) else w.disk)
    case Restart => World(Loaded(w.disk), w.disk)
  }

  ghost function RunWorld(w: World, es: seq<Event>): World
    decreases es
  {
    if es == [] then w else RunWorld(Step(w, es[0]), es[1..])
  }

  ghost predicate WorldOk(w: World) {
    WellFormed(w.mem) && InStep(w.mem, w.disk)
  }

  lemma UnpersistedChangesLeasesOnly(st: State, op: Op, d: Disk)
    requires WellFormed(st) && InStep(st, d) && !Persists(st, op)
    ensures InStep(Exec(st, op), d)
  {
    if op.OpPullAll? {
      QueueOpOk(st, op);
      forall s | s in st.queues ensures SameMessages(Exec(st, op).queues[s], d.queues[s]) {
        assert SameMessages(st.queues[s], d.queues[s]);
      }
    } else {
      assert Exec(st, op) == st;
    }
  }

  /** Memory stays well formed, and a restart never loses more than leases and attempts. */
  lemma StepOk(w: World, e: Event)
    requires WorldOk(w)
    ensures WorldOk(Step(w, e))
  {
    match e {
      case Do(op) =>
        ExecOk(w.mem, op);
        if Persists(w.mem, op) { PersistedInStep(Exec(w.mem, op)); }
        else { UnpersistedChangesLeasesOnly(w.mem, op, w.disk); }
      case Restart => LoadedOk(w.mem, w.disk);
    }
  }

  lemma {:induction false} RunOk(w: World, es: seq<Event>)
    requires WorldOk(w)
    ensures WorldOk(RunWorld(w, es))
    decreases es
  {
    if es != [] {
      StepOk(w, es[0]);
      RunOk(Step(w, es[0]), es[1..]);
    }
  }

  lemma BeginOk()
    ensures WorldOk(Begin)
  {}

  // ---------- what publishing enqueues ----------

  /** What each message of a queue carries. */
  function Payloads(q: Queue): map<string, Payload> {
    map a | a in q :: q[a].payload
  }

  /** What publishing `inputs` adds to a recipient's queue, when `counter` messages came before. */
  ghost function NewOn(sub: string, counter: nat, inputs: seq<Payload>): map<string, Payload> {
    NthAckIDInjective(sub);
    map n: nat | counter < n <= counter + |inputs| :: NthAckID(sub, n) := inputs[n - counter - 1]
  }

  lemma NewOnAt(sub: string, counter: nat, inputs: seq<Payload>, n: nat)
    requires counter < n <= counter + |inputs|
    ensures NthAckID(sub, n) in NewOn(sub, counter, inputs)
    ensures NewOn(sub, counter, inputs)[NthAckID(sub, n)] == inputs[n - counter - 1]
  {
    NthAckIDInjective(sub);
    hide NthAckID;
  }

  lemma NewOnKey(sub: string, counter: nat, inputs: seq<Payload>, a: string) returns (n: nat)
    requires a in NewOn(sub, counter, inputs)
    ensures counter < n <= counter + |inputs| && a == NthAckID(sub, n)
  {
    hide NthAckID;
    n :| counter < n <= counter + |inputs| && a == NthAckID(sub, n);
  }

  lemma NewOnNothing(sub: string, counter: nat)
    ensures NewOn(sub, counter, []) == map[]
  {}

  lemma NewOnOne(sub: string, counter: nat, p: Payload)
    ensures NewOn(sub, counter, [p]) == map[NthAckID(sub, counter + 1) := p]
  {
    hide NthAckID;
  }

  lemma NewOnSplits(sub: string, counter: nat, inputs: seq<Payload>)
    requires inputs != []
    ensures NewOn(sub, counter, inputs) == map[NthAckID(sub, counter + 1) := inputs[0]] + NewOn(sub, counter + 1, inputs[1..])
  {
    hide NthAckID, NewOn;
    var l, first, rest := NewOn(sub, counter, inputs), NthAckID(sub, counter + 1), NewOn(sub, counter + 1, inputs[1..]);
    forall a | a in l ensures a == first || a in rest {
      var n := NewOnKey(sub, counter, inputs, a);
      if n > counter + 1 { NewOnAt(sub, counter + 1, inputs[1..], n); }
    }
    forall a | a in rest ensures a in l && l[a] == rest[a] {
      var n := NewOnKey(sub, counter + 1, inputs[1..], a);
      NewOnAt(sub, counter + 1, inputs[1..], n);
      NewOnAt(sub, counter, inputs, n);
    }
    NewOnAt(sub, counter, inputs, counter + 1);
  }

  /** `r` carries what `q` does, and `added` besides. */
  predicate Gains(q: Queue, r: Queue, added: map<string, Payload>) {
    Payloads(r) == Payloads(q) + added
  }

  lemma GainsNothing(q: Queue)
    ensures Gains(q, q, map[])
  {}

  lemma GainsTwice(q: Queue, r: Queue, t: Queue, a: map<string, Payload>, b: map<string, Payload>)
    requires Gains(q, r, a) && Gains(r, t, b)
    ensures Gains(q, t, a + b)
  {
    hide Payloads;
  }

  lemma {:induction false} FanOutOn(st: State, topic: string, p: Payload, now: int, s: string)
    requires s in st.queues
    ensures var next := PublishOne(st, topic, p, now);
            && s in next.queues
            && if s in Recipients(st, topic) then Gains(st.queues[s], next.queues[s], map[NthAckID(s, st.counter + 1) := p])
               else next.queues[s] == st.queues[s]
  {
    hide Decimal, AckID;
    PayloadsOfUpdate(st.queues[s], NthAckID(s, st.counter + 1), Fresh(s, Decimal(st.counter + 1), p, now));
  }

  lemma PayloadsOfUpdate(q: Queue, a: string, m: Message)
    ensures Payloads(q[a := m]) == Payloads(q) + map[a := m.payload]
  {}

  /** Publishing gives every recipient all the inputs, and nobody else anything. */
  lemma {:induction false} PublishAllOn(st: State, topic: string, inputs: seq<Payload>, now: int, s: string)
    requires s in st.queues
    ensures s in PublishAll(st, topic, inputs, now).queues
    ensures var q := PublishAll(st, topic, inputs, now).queues[s];
            if s in Recipients(st, topic) then Gains(st.queues[s], q, NewOn(s, st.counter, inputs))
            else q == st.queues[s]
    decreases inputs
  {
    hide FanOut, NewOn, NthAckID, Gains;
    if inputs == [] {
      NewOnNothing(s, st.counter);
      GainsNothing(st.queues[s]);
    } else {
      var next := PublishOne(st, topic, inputs[0], now);
      FanOutOn(st, topic, inputs[0], now, s);
      PublishAllOn(next, topic, inputs[1..], now, s);
      PublishFirst(st, topic, inputs, now, s);
    }
  }

  /** Publishing the first input and then the rest. */
  lemma {:induction false} PublishFirst(st: State, topic: string, inputs: seq<Payload>, now: int, s: string)
    requires s in st.queues && inputs != []
    requires var next := PublishOne(st, topic, inputs[0], now);
             && s in next.queues && s in PublishAll(next, topic, inputs[1..], now).queues
             && var q := PublishAll(next, topic, inputs[1..], now).queues[s];
                if s in Recipients(next, topic) then Gains(next.queues[s], q, NewOn(s, next.counter, inputs[1..]))
                else q == next.queues[s]
    ensures s in PublishAll(st, topic, inputs, now).queues
    ensures var q := PublishAll(st, topic, inputs, now).queues[s];
            if s in Recipients(st, topic) then Gains(st.queues[s], q, NewOn(s, st.counter, inputs))
            else q == st.queues[s]
  {
    hide FanOut, NewOn, NthAckID, Gains;
    var next := PublishOne(st, topic, inputs[0], now);
    FanOutOn(st, topic, inputs[0], now, s);
    NewOnSplits(s, st.counter, inputs);
    if s in Recipients(st, topic) {
      GainsTwice(st.queues[s], next.queues[s], PublishAll(st, topic, inputs, now).queues[s],
                 map[NthAckID(s, st.counter + 1) := inputs[0]], NewOn(s, st.counter + 1, inputs[1..]));
    }
  }

  /** A forward hands its payload to every subscription of the dead-letter topic - its own included, if it
    subscribes to that - and takes the message off its own queue; a refused forward changes nothing. */
  lemma {:induction false} ForwardMovesOneMessage(st: State, sub: string, ackID: string, now: int, s: string)
    requires WellFormed(st) && s in st.queues
    ensures !CanForward(st, sub, ackID) ==> Forward(st, sub, ackID, now) == st
    ensures CanForward(st, sub, ackID) ==>
              && s in Forward(st, sub, ackID, now).queues
              && NthAckID(s, st.counter + 1) !in st.queues[s]
              && Payloads(Forward(st, sub, ackID, now).queues[s]) ==
                 Payloads(st.queues[s])
                 + (if s in Recipients(st, st.subs[sub].deadLetterTopic) then
                      NewOn(s, st.counter, [st.queues[sub][ackID].payload])
                    else map[])
                 - if s == sub then {ackID} else {}
  {
    if CanForward(st, sub, ackID) {
      var topic, m := st.subs[sub].deadLetterTopic, st.queues[sub][ackID];
      FanOutOn(st, topic, m.payload, now, s);
      NewOnOne(s, st.counter, m.payload);
      NextIsUnused(st, s, 1);
      assert m.ackID == ackID by { assert QueueOk(sub, st.queues[sub], st.counter); }
      hide NewOn, PublishOne, NthAckID, Recipients;
      PayloadsWithout(PublishOne(st, topic, m.payload, now).queues[s], ackID);
      GainsNothing(st.queues[s]);
    }
  }

  lemma PayloadsWithout(q: Queue, a: string)
    ensures Payloads(q - {a}) == Payloads(q) - {a}
    ensures Payloads(q) == Payloads(q) - {}
  {}

  /** No queue holds an ack ID that is yet to be issued. */
  lemma NextIsUnused(st: State, s: string, k: nat)
    requires WellFormed(st) && s in st.queues && k > 0
    ensures NthAckID(s, st.counter + k) !in st.queues[s]
  {
    if NthAckID(s, st.counter + k) in st.queues[s] {
      assert QueueOk(s, st.queues[s], st.counter);
      var n: nat :| 1 <= n <= st.counter && NthAckID(s, st.counter + k) == NthAckID(s, n);
      AckIDInjective(s, st.counter + k, s, n);
    }
  }

  // ---------- conservation ----------

  /** The history of one subscription since it was created: every message ever enqueued to it, and which
    of them were taken off by an acknowledgement or by a dead-letter forward. */
  datatype Ledger = Ledger(enqueued: map<string, Payload>, acked: set<string>, dead: set<string>)

  const NewLedger: Ledger := Ledger(map[], {}, {})

  /** What an operation, applied in state `st`, means for the ledger of `s`. */
  ghost function Post(l: Ledger, st: State, op: Op, s: string): Ledger {
    match op
    case OpCreateSubscription(cfg) =>
      if cfg.name == s && s !in st.subs && cfg.topic in st.topics then NewLedger else l
    case OpPublish(topic, inputs, _) =>
      if topic in st.topics && s in Recipients(st, topic) then
        l.(enqueued := l.enqueued + NewOn(s, st.counter, inputs))
      else l
    case OpAcknowledge(sub, ackIDs) =>
      if sub == s && s in st.queues then l.(acked := l.acked + set a | a in ackIDs && a in st.queues[s]) else l
    case OpForward(sub, ackID, _) =>
      if CanForward(st, sub, ackID) then
        l.(dead := if sub == s then l.dead + {ackID} else l.dead,
           enqueued := if s in Recipients(st, st.subs[sub].deadLetterTopic) then
                         l.enqueued + NewOn(s, st.counter, [st.queues[sub][ackID].payload])
                       else l.enqueued)
      else l
    case _ => l
  }

  ghost function PostAll(l: Ledger, w: World, es: seq<Event>, s: string): Ledger
    decreases es
  {
    if es == [] then l
    else PostAll(if es[0].Do? then Post(l, w.mem, es[0].op, s) else l, Step(w, es[0]), es[1..], s)
  }

  ghost predicate AllIssued(s: string, ackIDs: set<string>, counter: nat) {
    forall a :: a in ackIDs ==> IssuedBy(s, a, counter)
  }

  /** The queue holds exactly the enqueued messages that were neither acknowledged nor dead-lettered; and
    every one that was taken off had been enqueued. */
  ghost predicate Balanced(st: State, s: string, l: Ledger) {
    s in st.subs ==>
      && s in st.queues
      && Payloads(st.queues[s]) == l.enqueued - l.acked - l.dead
      && l.acked !! l.dead && l.acked + l.dead <= l.enqueued.Keys
      && AllIssued(s, l.enqueued.Keys, st.counter)
  }

  lemma NewOnIssued(s: string, counter: nat, inputs: seq<Payload>)
    ensures AllIssued(s, NewOn(s, counter, inputs).Keys, counter + |inputs|)
  {
    hide NthAckID;
  }

  lemma NewOnFresh(s: string, counter: nat, inputs: seq<Payload>, earlier: set<string>)
    requires AllIssued(s, earlier, counter)
    ensures NewOn(s, counter, inputs).Keys !! earlier
  {
    NthAckIDInjective(s);
    hide NthAckID;
    forall a | a in NewOn(s, counter, inputs) ensures a !in earlier {
      var n: nat :| counter < n <= counter + |inputs| && a == NthAckID(s, n);
      assert a in earlier ==> IssuedBy(s, a, counter);
    }
  }

  lemma IssuedGrows(s: string, ackIDs: set<string>, counter: nat, counter': nat)
    requires AllIssued(s, ackIDs, counter) && counter <= counter'
    ensures AllIssued(s, ackIDs, counter')
  {
    forall a | a in ackIDs ensures IssuedBy(s, a, counter') {
      var n: nat :| 1 <= n <= counter && a == NthAckID(s, n);
    }
  }

  /** Adding new messages to the queue and to the ledger keeps the balance. */
  lemma EnqueueBalances(before: State, after: State, s: string, l: Ledger, inputs: seq<Payload>)
    requires Balanced(before, s, l) && s in before.subs && s in after.subs && s in after.queues
    requires after.counter == before.counter + |inputs|
    requires Gains(before.queues[s], after.queues[s], NewOn(s, before.counter, inputs))
    ensures Balanced(after, s, l.(enqueued := l.enqueued + NewOn(s, before.counter, inputs)))
  {
    var added := NewOn(s, before.counter, inputs);
    NewOnFresh(s, before.counter, inputs, l.enqueued.Keys);
    NewOnIssued(s, before.counter, inputs);
    IssuedGrows(s, l.enqueued.Keys, before.counter, after.counter);
    hide NewOn, Payloads, IssuedBy;
    AddFresh(l.enqueued, added, l.acked, l.dead);
  }

  lemma AddFresh<K, V>(m: map<K, V>, n: map<K, V>, x: set<K>, y: set<K>)
    requires n.Keys !! m.Keys && x + y <= m.Keys
    ensures m - x - y + n == m + n - x - y
  {}

  lemma SamePayloads(q: Queue, r: Queue)
    requires SameMessages(q, r)
    ensures Payloads(q) == Payloads(r)
  {}

  lemma PublishBalances(st: State, topic: string, inputs: seq<Payload>, now: int, s: string, l: Ledger)
    requires WellFormed(st) && Balanced(st, s, l) && s in st.subs && topic in st.topics
    ensures Balanced(Publish(st, topic, inputs, now), s, Post(l, st, OpPublish(topic, inputs, now), s))
  {
    hide WellFormed, Gains, NewOn, Payloads, NthAckID, PublishAll, IssuedBy;
    var after := PublishAll(st, topic, inputs, now);
    PublishAllOn(st, topic, inputs, now, s);
    PublishAllOk(st, topic, inputs, now);
    PublishKeepsSubs(st, topic, inputs, now);
    if s in Recipients(st, topic) {
      EnqueueBalances(st, after, s, l, inputs);
    } else {
      IssuedGrows(s, l.enqueued.Keys, st.counter, after.counter);
    }
  }

  lemma {:induction false} PublishKeepsSubs(st: State, topic: string, inputs: seq<Payload>, now: int)
    ensures PublishAll(st, topic, inputs, now).subs == st.subs
    ensures PublishAll(st, topic, inputs, now).topicSubs == st.topicSubs
    decreases inputs
  {
    if inputs != [] { PublishKeepsSubs(PublishOne(st, topic, inputs[0], now), topic, inputs[1..], now); }
  }

  lemma AcknowledgeBalances(st: State, sub: string, ackIDs: seq<string>, s: string, l: Ledger)
    requires WellFormed(st) && Balanced(st, s, l) && s in st.subs
    ensures Balanced(Acknowledge(st, sub, ackIDs), s, Post(l, st, OpAcknowledge(sub, ackIDs), s))
  {
    hide WellFormed, Payloads, AllIssued;
    if sub == s {
      var gone := set a | a in ackIDs && a in st.queues[s];
      PayloadsKept(st.queues[s], ackIDs);
      assert Post(l, st, OpAcknowledge(sub, ackIDs), s) == l.(acked := l.acked + gone);
      TakeOff(l.enqueued, l.acked, l.dead, gone);
    } else {
      assert s in st.queues;
    }
  }

  lemma PayloadsKept(q: Queue, ackIDs: seq<string>)
    ensures Payloads(map a | a in q && a !in ackIDs :: q[a]) == Payloads(q) - set a | a in ackIDs && a in q
    ensures (set a | a in ackIDs && a in q) <= Payloads(q).Keys
  {}

  /** Taking messages off as acknowledged. */
  lemma TakeOff<K, V>(m: map<K, V>, acked: set<K>, dead: set<K>, gone: set<K>)
    requires gone <= (m - acked - dead).Keys && acked !! dead && acked + dead <= m.Keys
    ensures m - acked - dead - gone == m - (acked + gone) - dead
    ensures m - acked - dead - gone == m - acked - (dead + gone)
    ensures acked + gone !! dead && acked !! dead + gone && acked + gone + dead <= m.Keys
  {}

  lemma PublishOneBalances(st: State, topic: string, p: Payload, now: int, s: string, l: Ledger)
    requires WellFormed(st) && Balanced(st, s, l) && s in st.subs
    ensures Balanced(PublishOne(st, topic, p, now), s,
                     if s in Recipients(st, topic) then l.(enqueued := l.enqueued + NewOn(s, st.counter, [p])) else l)
  {
    var published := PublishOne(st, topic, p, now);
    FanOutOn(st, topic, p, now, s);
    NewOnOne(s, st.counter, p);
    hide NewOn, Gains, NthAckID;
    if s in Recipients(st, topic) {
      EnqueueBalances(st, published, s, l, [p]);
    } else {
      IssuedGrows(s, l.enqueued.Keys, st.counter, published.counter);
    }
  }

  lemma ForwardBalances(st: State, sub: string, ackID: string, now: int, s: string, l: Ledger)
    requires WellFormed(st) && Balanced(st, s, l) && s in st.subs && CanForward(st, sub, ackID)
    ensures Balanced(Forward(st, sub, ackID, now), s, Post(l, st, OpForward(sub, ackID, now), s))
  {
    var topic, m := st.subs[sub].deadLetterTopic, st.queues[sub][ackID];
    var published := PublishOne(st, topic, m.payload, now);
    assert m.ackID == ackID by { assert QueueOk(sub, st.queues[sub], st.counter); }
    PublishOneBalances(st, topic, m.payload, now, s, l);
    var mid := if s in Recipients(st, topic) then l.(enqueued := l.enqueued + NewOn(s, st.counter, [m.payload])) else l;
    var rest := published.queues[sub] - {ackID};
    assert Forward(st, sub, ackID, now) == WithQueue(published, sub, rest);
    assert Post(l, st, OpForward(sub, ackID, now), s) == if s == sub then mid.(dead := mid.dead + {ackID}) else mid;
    if s == sub {
      assert ackID in published.queues[s];
      hide Balanced, PublishOne, NewOn, Recipients, Post, Forward;
      DeadLetterBalances(published, s, mid, ackID);
    } else {
      hide PublishOne, NewOn, Recipients, Post, Forward, AllIssued;
    }
  }

  lemma DeadLetterBalances(st: State, s: string, l: Ledger, ackID: string)
    requires Balanced(st, s, l) && s in st.subs && s in st.queues && ackID in st.queues[s]
    ensures Balanced(WithQueue(st, s, st.queues[s] - {ackID}), s, l.(dead := l.dead + {ackID}))
  {
    PayloadsWithout(st.queues[s], ackID);
    assert ackID in Payloads(st.queues[s]);
    hide IssuedBy, Payloads;
    TakeOff(l.enqueued, l.acked, l.dead, {ackID});
  }

  lemma ExecBalances(st: State, op: Op, s: string, l: Ledger)
    requires WellFormed(st) && Balanced(st, s, l)
    ensures Balanced(Exec(st, op), s, Post(l, st, op, s))
  {
    hide WellFormed, Payloads, AllIssued, PublishAll, FanOut, NewOn, IssuedBy;
    match op {
      case OpPublish(topic, inputs, now) =>
        if topic in st.topics {
          if s in st.subs { PublishBalances(st, topic, inputs, now, s, l); } else { PublishKeepsSubs(st, topic, inputs, now); }
        }
      case OpForward(sub, ackID, now) =>
        if CanForward(st, sub, ackID) && s in st.subs { ForwardBalances(st, sub, ackID, now, s, l); }
      case OpAcknowledge(sub, ackIDs) =>
        if s in st.subs { AcknowledgeBalances(st, sub, ackIDs, s, l); }
      case OpPull(_, _, _) => LeaseOpBalances(st, op, s, l);
      case OpModifyAckDeadline(_, _, _, _) => LeaseOpBalances(st, op, s, l);
      case OpPullAll(_, _) => LeaseOpBalances(st, op, s, l);
      case _ => SetupBalances(st, op, s, l);
    }
  }

  lemma SetupBalances(st: State, op: Op, s: string, l: Ledger)
    requires WellFormed(st) && Balanced(st, s, l)
    requires op.OpCreateTopic? || op.OpDeleteTopic? || op.OpCreateSubscription? || op.OpDeleteSubscription?
    ensures Balanced(Exec(st, op), s, Post(l, st, op, s))
  {
    hide IssuedBy, Recipients, IndexSound, IndexComplete;
  }

  lemma LeaseOpBalances(st: State, op: Op, s: string, l: Ledger)
    requires WellFormed(st) && Balanced(st, s, l) && (op.OpPull? || op.OpModifyAckDeadline? || op.OpPullAll?)
    ensures Balanced(Exec(st, op), s, l)
  {
    QueueOpOk(st, op);
    if s in st.subs { SamePayloads(st.queues[s], Exec(st, op).queues[s]); }
  }

  /** Conservation. In any run, restarts included, the queue of a subscription holds exactly what was
    enqueued to it since its creation, less what was acknowledged or dead-lettered. */
  lemma {:induction false} Conservation(w: World, es: seq<Event>, s: string, l: Ledger)
    requires WorldOk(w) && Balanced(w.mem, s, l)
    ensures Balanced(RunWorld(w, es).mem, s, PostAll(l, w, es, s))
    decreases es
  {
    if es != [] {
      StepOk(w, es[0]);
      match es[0] {
        case Do(op) =>
          ExecBalances(w.mem, op, s, l);
          Conservation(Step(w, es[0]), es[1..], s, Post(l, w.mem, op, s));
        case Restart =>
          if s in w.mem.subs { SamePayloads(w.mem.queues[s], w.disk.queues[s]); }
          LoadedOk(w.mem, w.disk);
          Conservation(Step(w, es[0]), es[1..], s, l);
      }
    }
  }

  lemma {:induction false} ConservationFromTheStart(es: seq<Event>, s: string)
    ensures Balanced(RunWorld(Begin, es).mem, s, PostAll(NewLedger, Begin, es, s))
  {
    BeginOk();
    Conservation(Begin, es, s, NewLedger);
  }

  // ---------- ack IDs are never reused ----------

  /** The `n`-th message, as it was given to subscription `sub` under an ack ID. */
  datatype Issue = Issue(ackID: string, sub: string, n: nat, payload: Payload)

  ghost function IssuesOf(st: State, topic: string, inputs: seq<Payload>): set<Issue> {
    set s, n: nat | s in Recipients(st, topic) && s in st.queues && st.counter < n <= st.counter + |inputs| ::
      Issue(NthAckID(s, n), s, n, inputs[n - st.counter - 1])
  }

  ghost function NewIssues(st: State, op: Op): set<Issue> {
    match op
    case OpPublish(topic, inputs, _) => if topic in st.topics then IssuesOf(st, topic, inputs) else {}
    case OpForward(sub, ackID, _) =>
      if CanForward(st, sub, ackID) then IssuesOf(st, st.subs[sub].deadLetterTopic, [st.queues[sub][ackID].payload])
      else {}
    case _ => {}
  }

  ghost function Issued(w: World, es: seq<Event>, before: set<Issue>): set<Issue>
    decreases es
  {
    if es == [] then before
    else Issued(Step(w, es[0]), es[1..], before + if es[0].Do? then NewIssues(w.mem, es[0].op) else {})
  }

  ghost predicate IssuesOk(issues: set<Issue>, counter: nat) {
    forall i :: i in issues ==> 1 <= i.n <= counter && i.ackID == NthAckID(i.sub, i.n)
  }

  /** Issues with one ack ID are one issue. */
  ghost predicate NeverReused(issues: set<Issue>) {
    forall i, j :: i in issues && j in issues && i.ackID == j.ackID ==> i == j
  }

  /** Every message waiting in a queue was issued, with the payload it has. */
  ghost predicate AllOnRecord(st: State, issues: set<Issue>) {
    forall s, a :: s in st.queues && a in st.queues[s] ==> OnRecord(issues, s, a, st.queues[s][a].payload)
  }

  ghost predicate OnRecord(issues: set<Issue>, s: string, a: string, p: Payload) {
    exists n: nat :: Issue(a, s, n, p) in issues
  }

  lemma IssuesOfFresh(st: State, topic: string, inputs: seq<Payload>, issues: set<Issue>)
    requires IssuesOk(issues, st.counter) && NeverReused(issues)
    ensures IssuesOk(issues + IssuesOf(st, topic, inputs), st.counter + |inputs|)
    ensures NeverReused(issues + IssuesOf(st, topic, inputs))
    ensures forall i, j :: i in issues && j in IssuesOf(st, topic, inputs) ==> i.ackID != j.ackID
  {
    var added := IssuesOf(st, topic, inputs);
    forall j | j in added ensures st.counter < j.n <= st.counter + |inputs| && j.ackID == NthAckID(j.sub, j.n)
                               && j.payload == inputs[j.n - st.counter - 1] {}
    hide IssuesOf, NthAckID;
    forall i, j | i in issues + added && j in issues + added && i.ackID == j.ackID ensures i.sub == j.sub && i.n == j.n {
      AckIDInjective(i.sub, i.n, j.sub, j.n);
    }
  }

  /** The messages of `after` were in `before`, or are on record. */
  ghost predicate Accounted(before: State, after: State, issues: set<Issue>) {
    forall s, a :: s in after.queues && a in after.queues[s] ==>
      || (s in before.queues && a in before.queues[s] && before.queues[s][a].payload == after.queues[s][a].payload)
      || OnRecord(issues, s, a, after.queues[s][a].payload)
  }

  lemma PublishAccounted(st: State, topic: string, inputs: seq<Payload>, now: int)
    requires WellFormed(st)
    ensures Accounted(st, PublishAll(st, topic, inputs, now), IssuesOf(st, topic, inputs))
  {
    var after, issues := PublishAll(st, topic, inputs, now), IssuesOf(st, topic, inputs);
    PublishKeepsQueues(st, topic, inputs, now);
    hide PublishAll, IssuesOf;
    forall s, a | s in after.queues && a in after.queues[s]
                  && !(a in st.queues[s] && st.queues[s][a].payload == after.queues[s][a].payload)
      ensures OnRecord(issues, s, a, after.queues[s][a].payload)
    {
      GainIsIssued(st, topic, inputs, now, s, a);
    }
  }

  lemma {:induction false} GainIsIssued(st: State, topic: string, inputs: seq<Payload>, now: int, s: string, a: string)
    requires s in st.queues
    ensures s in PublishAll(st, topic, inputs, now).queues
    ensures var q := PublishAll(st, topic, inputs, now).queues[s];
            a in q && !(a in st.queues[s] && st.queues[s][a].payload == q[a].payload) ==>
              OnRecord(IssuesOf(st, topic, inputs), s, a, q[a].payload)
  {
    PublishAllOn(st, topic, inputs, now, s);
    var q := PublishAll(st, topic, inputs, now).queues[s];
    hide PublishAll, Gains, NewOn, NthAckID;
    if a in q && !(a in st.queues[s] && st.queues[s][a].payload == q[a].payload) {
      GainedOne(st.queues[s], q, NewOn(s, st.counter, inputs), a);
      var n := NewOnKey(s, st.counter, inputs, a);
      NewOnAt(s, st.counter, inputs, n);
      assert Issue(a, s, n, q[a].payload) in IssuesOf(st, topic, inputs);
    }
  }

  lemma GainedOne(q: Queue, r: Queue, added: map<string, Payload>, a: string)
    requires Gains(q, r, added) && a in r && !(a in q && q[a].payload == r[a].payload)
    ensures a in added && added[a] == r[a].payload
  {
    assert a in Payloads(r);
  }

  lemma {:induction false} PublishKeepsQueues(st: State, topic: string, inputs: seq<Payload>, now: int)
    ensures PublishAll(st, topic, inputs, now).queues.Keys == st.queues.Keys
    decreases inputs
  {
    if inputs != [] { PublishKeepsQueues(PublishOne(st, topic, inputs[0], now), topic, inputs[1..], now); }
  }

  lemma ExecAccounted(st: State, op: Op)
    requires WellFormed(st)
    ensures Accounted(st, Exec(st, op), NewIssues(st, op))
  {
    hide WellFormed, Accounted, IssuesOf, PublishAll, Forward, Pull, Acknowledge, ModifyAckDeadline, PullAll;
    match op {
      case OpPublish(topic, inputs, now) =>
        PublishAccounted(st, topic, inputs, now);
        NothingNew(st, st, {});
      case OpForward(sub, ackID, now) => ForwardAccounted(st, sub, ackID, now);
      case OpPull(_, _, _) => QueueOpAccounted(st, op);
      case OpAcknowledge(_, _) => QueueOpAccounted(st, op);
      case OpModifyAckDeadline(_, _, _, _) => QueueOpAccounted(st, op);
      case OpPullAll(_, _) => QueueOpAccounted(st, op);
      case _ => NothingNew(st, Exec(st, op), {});
    }
  }

  lemma NothingNew(before: State, after: State, issues: set<Issue>)
    requires forall s :: s in after.queues ==>
                           after.queues[s] == map[] || (s in before.queues && after.queues[s] == before.queues[s])
    ensures Accounted(before, after, issues)
  {}

  lemma QueueOpAccounted(st: State, op: Op)
    requires WellFormed(st)
    requires op.OpPull? || op.OpAcknowledge? || op.OpModifyAckDeadline? || op.OpPullAll?
    ensures Accounted(st, Exec(st, op), {})
  {
    hide WellFormed, Pull, Acknowledge, ModifyAckDeadline, PullAll;
    QueueOpOk(st, op);
    assert Exec(st, op).queues.Keys == st.queues.Keys by { KeysOfQueueOp(st, op); }
  }

  lemma KeysOfQueueOp(st: State, op: Op)
    requires op.OpPull? || op.OpAcknowledge? || op.OpModifyAckDeadline? || op.OpPullAll?
    ensures Exec(st, op).queues.Keys == st.queues.Keys
  {
    hide Pulled, AllPulled, Redeadlined, PulledIDs;
  }

  lemma ForwardAccounted(st: State, sub: string, ackID: string, now: int)
    requires WellFormed(st)
    ensures Accounted(st, Forward(st, sub, ackID, now), NewIssues(st, OpForward(sub, ackID, now)))
  {
    hide WellFormed, IssuesOf, OnRecord;
    if CanForward(st, sub, ackID) {
      var topic, p := st.subs[sub].deadLetterTopic, st.queues[sub][ackID].payload;
      PublishAccounted(st, topic, [p], now);
      PublishSingle(st, topic, p, now);
    } else {
      NothingNew(st, st, {});
    }
  }

  lemma PublishSingle(st: State, topic: string, p: Payload, now: int)
    ensures PublishAll(st, topic, [p], now) == PublishOne(st, topic, p, now)
  {
    assert PublishAll(st, topic, [p], now) == PublishAll(PublishOne(st, topic, p, now), topic, [p][1..], now);
  }

  lemma NewIssuesCounter(st: State, op: Op)
    requires WellFormed(st)
    ensures Exec(st, op).counter == st.counter + (if op.OpPublish? && op.topic in st.topics then |op.inputs|
                                                  else if op.OpForward? && CanForward(st, op.sub, op.ackID) then 1 else 0)
  {
    if op.OpPublish? { PublishAllOk(st, op.topic, op.inputs, op.now); }
  }

  lemma IssuesOkGrows(issues: set<Issue>, counter: nat, counter': nat)
    requires IssuesOk(issues, counter) && counter <= counter'
    ensures IssuesOk(issues, counter')
  {}

  ghost predicate RecordOk(w: World, issues: set<Issue>) {
    WorldOk(w) && IssuesOk(issues, w.mem.counter) && NeverReused(issues) && AllOnRecord(w.mem, issues)
  }

  lemma ExecKeepsRecord(w: World, op: Op, issues: set<Issue>)
    requires RecordOk(w, issues)
    ensures RecordOk(Step(w, Do(op)), issues + NewIssues(w.mem, op))
    ensures forall i, j :: i in issues && j in NewIssues(w.mem, op) ==> i.ackID != j.ackID
  {
    var st := w.mem;
    StepOk(w, Do(op));
    NewIssuesCounter(st, op);
    IssuesOkGrows(issues, st.counter, Exec(st, op).counter);
    if op.OpPublish? && op.topic in st.topics {
      IssuesOfFresh(st, op.topic, op.inputs, issues);
    } else if op.OpForward? && CanForward(st, op.sub, op.ackID) {
      IssuesOfFresh(st, st.subs[op.sub].deadLetterTopic, [st.queues[op.sub][op.ackID].payload], issues);
    } else {
      assert issues + NewIssues(st, op) == issues;
    }
    ExecAccounted(st, op);
    RecordGrows(st, Exec(st, op), issues, NewIssues(st, op));
  }

  lemma RecordGrows(before: State, after: State, issues: set<Issue>, added: set<Issue>)
    requires AllOnRecord(before, issues) && Accounted(before, after, added)
    ensures AllOnRecord(after, issues + added)
  {
    forall s, a | s in after.queues && a in after.queues[s]
      ensures OnRecord(issues + added, s, a, after.queues[s][a].payload)
    {
      var p := after.queues[s][a].payload;
      var source := if OnRecord(added, s, a, p) then added else issues;
      assert OnRecord(source, s, a, p);
      var n: nat :| Issue(a, s, n, p) in source;
      assert Issue(a, s, n, p) in issues + added;
    }
  }

  lemma RestartKeepsRecord(w: World, issues: set<Issue>)
    requires RecordOk(w, issues)
    ensures RecordOk(Step(w, Restart), issues)
  {
    StepOk(w, Restart);
    LoadedOk(w.mem, w.disk);
    var after := Step(w, Restart).mem;
    forall s, a | s in after.queues && a in after.queues[s] ensures OnRecord(issues, s, a, after.queues[s][a].payload) {
      assert SameMessages(w.mem.queues[s], w.disk.queues[s]);
      assert OnRecord(issues, s, a, w.mem.queues[s][a].payload);
    }
  }

  /** In any run - across subscriptions that are deleted and created again, dead-lettering and restarts -
    no ack ID is given to two messages, and whatever waits in a queue is what its ack ID was issued for. */
  lemma {:induction false} AckIDsNeverReused(w: World, es: seq<Event>, issues: set<Issue>)
    requires RecordOk(w, issues)
    ensures RecordOk(RunWorld(w, es), Issued(w, es, issues))
    decreases es
  {
    if es != [] {
      var next := issues + if es[0].Do? then NewIssues(w.mem, es[0].op) else {};
      match es[0] {
        case Do(op) => ExecKeepsRecord(w, op, issues);
        case Restart => RestartKeepsRecord(w, issues); assert next == issues;
      }
      AckIDsNeverReused(Step(w, es[0]), es[1..], next);
    }
  }

  /** A stale acknowledgement is harmless: using an issued ack ID, in any later state and on whatever
    subscription, can only take off the message it was issued for. */
  lemma {:induction false} StaleAckIsHarmless(es: seq<Event>, i: Issue, sub: string)
    requires i in Issued(Begin, es, {})
    ensures var st := RunWorld(Begin, es).mem;
            var after := Acknowledge(st, sub, [i.ackID]);
            after != st ==>
              && sub == i.sub && i.ackID in st.queues[sub]
              && st.queues[sub][i.ackID].payload == i.payload
              && after == WithQueue(st, sub, st.queues[sub] - {i.ackID})
  {
    BeginOk();
    AckIDsNeverReused(Begin, es, {});
    var st, issues := RunWorld(Begin, es).mem, Issued(Begin, es, {});
    AckOne(st, sub, i.ackID);
    if sub in st.subs && i.ackID in st.queues[sub] {
      assert OnRecord(issues, sub, i.ackID, st.queues[sub][i.ackID].payload);
    }
  }

  lemma AckOne(st: State, sub: string, ackID: string)
    requires WellFormed(st)
    ensures Acknowledge(st, sub, [ackID]) ==
            if sub in st.subs && ackID in st.queues[sub] then WithQueue(st, sub, st.queues[sub] - {ackID}) else st
  {
    if sub in st.subs {
      var q := st.queues[sub];
      assert (map a | a in q && a !in [ackID] :: q[a]) == q - {ackID};
      assert ackID !in q ==> q - {ackID} == q;
    }
  }
}
