/** The push side of the Pub/Sub service: a tick of the delivery loop, and the dispatch of one message. */
module PubSubService {
  import opened Text
  import opened PubSubState
  import opened PubSubRuns
  import opened PubSubLeases
  import opened PubSubPush
  import opened PubSubLoop
  import S = PubSubStore
  import D = Dispatch

  // ---------- the messages of a tick ----------

  /** The messages are in the queue, and no two have one ack ID. */
  ghost predicate Queued(q: S.HeapQueue, ms: seq<S.QueuedMessage>) {
    && (forall i :: 0 <= i < |ms| ==> ms[i].ackID in q && q[ms[i].ackID] == ms[i])
    && forall i, j :: 0 <= i < j < |ms| ==> ms[i].ackID != ms[j].ackID
  }

  lemma QueuedNext(q: S.HeapQueue, ms: seq<S.QueuedMessage>, j: nat)
    requires j < |ms| && Queued(q, ms[j..])
    ensures ms[j].ackID in q && q[ms[j].ackID] == ms[j]
  {
    assert ms[j..][0] == ms[j];
  }

  /** What is yet to be pushed stays in the queue when one message is done with. */
  lemma StillQueued(before: map<string, S.HeapQueue>, after: map<string, S.HeapQueue>, s: string,
                    ms: seq<S.QueuedMessage>, j: nat)
    requires s in before && s in after && j < |ms|
    requires Queued(before[s], ms[j..]) && S.StaysBut(before, after, s, [ms[j].ackID])
    ensures Queued(after[s], ms[j + 1..])
  {
    var rest := ms[j + 1..];
    forall i | 0 <= i < |rest| ensures rest[i].ackID in after[s] && after[s][rest[i].ackID] == rest[i] {
      assert rest[i] == ms[j..][i + 1] && ms[j] == ms[j..][0];
      assert rest[i].ackID in before[s] && rest[i].ackID !in [ms[j].ackID];
    }
    forall i, k | 0 <= i < k < |rest| ensures rest[i].ackID != rest[k].ackID {
      assert rest[i] == ms[j..][i + 1] && rest[k] == ms[j..][k + 1];
    }
  }

  /** A tick takes each message once. */
  lemma TakenAreQueued(s: string, q: S.HeapQueue, ms: seq<S.QueuedMessage>, ids: seq<string>)
    requires S.Hands(s, q, ms, ids) && forall i, j :: 0 <= i < j < |ids| ==> ids[i] != ids[j]
    ensures Queued(q, ms[0..])
  {
    hide AckID;
    assert ms[0..] == ms;
    forall i, j | 0 <= i < j < |ms| ensures ms[i].ackID != ms[j].ackID {
      SameIDs(s, ids[i], ids[j]);
    }
  }

  lemma HandedAt(s: string, q: S.HeapQueue, ms: seq<S.QueuedMessage>, ids: seq<string>)
    requires S.Hands(s, q, ms, ids)
    ensures |ms| == |ids| && forall j :: 0 <= j < |ids| ==> ms[j].ackID == AckID(s, ids[j])
  {}

  // ---------- the steps taken so far ----------

  lemma {:induction false} RunSnoc(st: State, steps: seq<PushStep>, step: PushStep)
    ensures PushRun(st, steps + [step]) == PushExec(PushRun(st, steps), step)
  {
    hide PushExec;
    PushRunConcat(st, steps, [step]);
    assert PushRun(PushExec(PushRun(st, steps), step), [step][1..]) == PushExec(PushRun(st, steps), step);
  }

  /** The steps of a tick when the first `j` messages have been pushed. */
  ghost function TickSoFar(cfg: D.Config, c: Circumstances, s: string, ids: seq<string>, j: nat): seq<PushStep>
    requires j <= |ids|
  {
    [Tick(s, c.pullTime(s))] + PushesOf(cfg, c, s, ids[..j])
  }

  lemma {:induction false} TickStarts(cfg: D.Config, c: Circumstances, st: State, s: string, ids: seq<string>)
    ensures PushRun(st, TickSoFar(cfg, c, s, ids, 0)) == PullAll(st, s, c.pullTime(s))
  {
    hide PullAll;
    var step := Tick(s, c.pullTime(s));
    RunSnoc(st, [], step);
    assert TickSoFar(cfg, c, s, ids, 0) == [] + [step];
  }

  lemma {:induction false} TickGoesOn(cfg: D.Config, c: Circumstances, st: State, s: string, ids: seq<string>, j: nat)
    requires j < |ids|
    ensures PushRun(st, TickSoFar(cfg, c, s, ids, j + 1)) ==
            PushExec(PushRun(st, TickSoFar(cfg, c, s, ids, j)), PushOf(cfg, c, s, AckID(s, ids[j])))
  {
    hide PushExec, PushOf, PushRun;
    var step := PushOf(cfg, c, s, AckID(s, ids[j]));
    RunSnoc(st, TickSoFar(cfg, c, s, ids, j), step);
    assert TickSoFar(cfg, c, s, ids, j + 1) == TickSoFar(cfg, c, s, ids, j) + [step];
  }

  lemma {:induction false} TickEnds(cfg: D.Config, c: Circumstances, st: State, s: string)
    ensures var ids := TakenIDs(st, s, c.pullTime(s));
            TickSoFar(cfg, c, s, ids, |ids|) == TickOf(cfg, c, st, s)
  {
    var ids := TakenIDs(st, s, c.pullTime(s));
    assert ids[..|ids|] == ids;
  }

  lemma {:induction false} RoundGoesOn(cfg: D.Config, c: Circumstances, st: State, names: seq<string>, i: nat)
    requires i < |names|
    ensures PushRun(st, RoundOf(cfg, c, st, names[..i + 1])) ==
            PushRun(PushRun(st, RoundOf(cfg, c, st, names[..i])),
                    TickOf(cfg, c, PushRun(st, RoundOf(cfg, c, st, names[..i])), names[i]))
  {
    hide TickOf, PushRun;
    assert names[..i + 1][..i] == names[..i] && names[..i + 1][i] == names[i];
    var before := RoundOf(cfg, c, st, names[..i]);
    PushRunConcat(st, before, TickOf(cfg, c, PushRun(st, before), names[i]));
  }

  class Service {
    const store: S.Store
    const config: D.Config := PUSH_CONFIG

    constructor (store: S.Store)
      ensures this.store == store
    {
      this.store := store;
    }

    /** Pushes one message. It is acknowledged exactly when some attempt is accepted; a failed one is
      dead-lettered once it has used up its attempts, and else left for its deadline to pass. */
    method PushMessage(sub: S.SubscriptionRecord, m: S.QueuedMessage, net: D.Script, now: int)
      returns (ghost posts: nat, ghost ok: bool)
      requires store.Valid()
      requires sub.name in store.subscriptions && store.subscriptions[sub.name] == sub && sub.name in store.messages
      requires m.ackID in store.messages[sub.name] ==> store.messages[sub.name][m.ackID] == m
      modifies store`messages, store`cells, store`msgCounter, store`file, store`world
      ensures posts == D.Posts(config, net)
      ensures ok <==> exists k: nat :: k <= config.maxRetries && D.AcceptedAt(net, k)
      ensures forall c :: c in store.cells ==> c in old(store.cells) || fresh(c)
      ensures S.StaysBut(old(store.messages), store.messages, sub.name, [m.ackID])
      ensures store.world.mem == PushExec(old(store.world.mem), Pushed(sub.name, m.ackID, posts, ok, now))
      ensures store.Valid()
    {
      hide *;
      var report, p, waits := D.Dispatch(config, net);
      posts, ok := p, report.err.None?;
      D.SucceedsExactly(config, net, report);
      PushFacts(sub, m, posts, now);
      if report.err.None? {
        var r := store.Acknowledge(sub.name, [m.ackID]);
      } else if sub.deadLetterTopic != "" && sub.maxDeliveryAttempts > 0 && m.attempt >= sub.maxDeliveryAttempts {
        var forwarded := store.ForwardToDeadLetter(sub.name, m.ackID, now);
      } else {
        S.StaysPut(store.messages, sub.name, [m.ackID]);
      }
    }

    lemma {:induction false} PushFacts(sub: S.SubscriptionRecord, m: S.QueuedMessage, posts: nat, now: int)
      requires store.Valid()
      requires sub.name in store.subscriptions && store.subscriptions[sub.name] == sub && sub.name in store.messages
      requires m.ackID in store.messages[sub.name] ==> store.messages[sub.name][m.ackID] == m
      ensures var w, s, a := store.world, sub.name, m.ackID;
              && PushExec(w.mem, Pushed(s, a, posts, true, now)) == Step(w, Do(OpAcknowledge(s, [a]))).mem
              && PushExec(w.mem, Pushed(s, a, posts, false, now)) ==
                 if sub.deadLetterTopic != "" && sub.maxDeliveryAttempts > 0 && m.attempt >= sub.maxDeliveryAttempts
                 then Step(w, Do(OpForward(s, a, now))).mem else w.mem
    {
      hide *;
      var w, s, a := store.world, sub.name, m.ackID;
      store.ValidFacts();
      store.SubAt(s, w.mem);
      store.Apart(s, w.mem);
      PushedIsAnOp(w.mem, s, a, posts, now);
      StepMem(w, OpAcknowledge(s, [a]));
      StepMem(w, OpForward(s, a, now));
      GivesUpHere(w.mem, sub, m, now);
    }

    lemma GivesUpHere(st: State, sub: S.SubscriptionRecord, m: S.QueuedMessage, now: int)
      requires sub.name in st.subs && st.subs[sub.name] == sub.Value() && sub.name in st.queues && sub.name in store.messages
      requires S.QueueIs(sub.name, store.messages[sub.name], st.queues[sub.name])
      requires m.ackID in store.messages[sub.name] ==> store.messages[sub.name][m.ackID] == m
      ensures GivesUp(st, sub.name, m.ackID) <==>
              && m.ackID in st.queues[sub.name]
              && sub.deadLetterTopic != "" && sub.maxDeliveryAttempts > 0 && m.attempt >= sub.maxDeliveryAttempts
      ensures m.ackID !in st.queues[sub.name] ==> Exec(st, OpForward(sub.name, m.ackID, now)) == st
    {
      S.ExecForward(st, sub.name, m.ackID, now);
      hide Exec;
    }

    /** One tick of the delivery loop: pulls every push subscription in turn, each once, and pushes what it
      pulled. Afterwards, no message that waits in a dead-lettering subscription has used up its attempts. */
    method PushTick(c: Circumstances) returns (ghost names: seq<string>)
      requires store.Valid()
      modifies store`messages, store`cells, store`msgCounter, store`file, store`world, store.cells
      ensures forall m :: m in store.cells ==> m in old(store.cells) || fresh(m)
      ensures ListsPushed(names, old(store.world.mem))
      ensures store.world.mem == PushRun(old(store.world.mem), RoundOf(config, c, old(store.world.mem), names))
      ensures AllBounded(old(store.world.mem)) ==> AllBounded(store.world.mem)
      ensures store.Valid()
    {
      hide *;
      ghost var st := store.world.mem;
      store.ValidFacts();
      var subs := store.PushSubscriptions();
      names := NamesOf(subs);
      Listed(subs);
      NothingYet(config, c, st, names);
      for i := 0 to |subs|
        invariant store.Valid()
        invariant forall m :: m in store.cells ==> m in old(store.cells) || fresh(m)
        invariant store.world.mem == PushRun(st, RoundOf(config, c, st, names[..i]))
      {
        assert subs[i] in subs;
        NameAt(subs, i);
        RoundGoesOn(config, c, st, names, i);
        PushOne(subs[i], c);
      }
      assert names[..|subs|] == names;
      if AllBounded(st) { RoundKeepsBounds(config, c, st, names); }
    }

    lemma Listed(subs: seq<S.SubscriptionRecord>)
      requires store.Valid()
      requires forall s :: s in subs <==>
                 s.name in store.subscriptions && store.subscriptions[s.name] == s && s.pushEndpoint != ""
      requires forall i, j :: 0 <= i < j < |subs| ==> subs[i].name != subs[j].name
      ensures ListsPushed(NamesOf(subs), store.world.mem)
    {
      var names, st := NamesOf(subs), store.world.mem;
      store.ValidFacts();
      hide S.Store.Valid, S.Store.Holds, WorldOk, WellFormed;
      forall s ensures s in names <==> s in st.subs && st.subs[s].pushEndpoint != "" {
        if s in st.subs {
          store.SubAt(s, st);
          var record := store.subscriptions[s];
          if record in subs {
            var i :| 0 <= i < |subs| && subs[i] == record;
            assert names[i] == s;
          }
        }
      }
    }

    /** Pulls one push subscription, and pushes what it pulled. */
    method PushOne(sub: S.SubscriptionRecord, c: Circumstances)
      requires store.Valid() && sub.name in store.subscriptions && store.subscriptions[sub.name] == sub
      modifies store`messages, store`cells, store`msgCounter, store`file, store`world, store.cells
      ensures forall m :: m in store.cells ==> m in old(store.cells) || fresh(m)
      ensures store.world.mem == PushRun(old(store.world.mem), TickOf(config, c, old(store.world.mem), sub.name))
      ensures store.Valid()
    {
      hide *;
      var s := sub.name;
      var now := c.pullTime(s);
      ghost var w := store.world;
      ghost var st := w.mem;
      ghost var ids := TakenIDs(st, s, now);
      store.ValidFacts();
      var msgs := store.PullAllUndelivered(s, now);
      TakenOf(st, s, now);
      TakenOnce(st, s, now);
      TakenAreQueued(s, store.messages[s], msgs, ids);
      HandedAt(s, store.messages[s], msgs, ids);
      StepMem(w, OpPullAll(s, now));
      ExecPullAll(st, s, now);
      TickStarts(config, c, st, s, ids);
      for j := 0 to |msgs|
        invariant store.Valid() && s in store.subscriptions && store.subscriptions[s] == sub
        invariant forall m :: m in store.cells ==> m in old(store.cells) || fresh(m)
        invariant s in store.messages && Queued(store.messages[s], msgs[j..])
        invariant store.world.mem == PushRun(st, TickSoFar(config, c, s, ids, j))
      {
        TickGoesOn(config, c, st, s, ids, j);
        PushNext(sub, msgs, j, c);
      }
      TickEnds(config, c, st, s);
    }

    method PushNext(sub: S.SubscriptionRecord, msgs: seq<S.QueuedMessage>, j: nat, c: Circumstances)
      requires store.Valid() && sub.name in store.subscriptions && store.subscriptions[sub.name] == sub
      requires sub.name in store.messages && j < |msgs| && Queued(store.messages[sub.name], msgs[j..])
      modifies store`messages, store`cells, store`msgCounter, store`file, store`world
      ensures forall m :: m in store.cells ==> m in old(store.cells) || fresh(m)
      ensures sub.name in store.messages && Queued(store.messages[sub.name], msgs[j + 1..])
      ensures store.world.mem == PushExec(old(store.world.mem), PushOf(config, c, sub.name, msgs[j].ackID))
      ensures store.Valid()
    {
      hide *;
      ghost var messages := store.messages;
      store.ValidFacts();
      var m := msgs[j];
      QueuedNext(messages[sub.name], msgs, j);
      ghost var posts, ok := PushMessage(sub, m, c.net(m.ackID), c.pushTime(m.ackID));
      store.ValidFacts();
      StillQueued(messages, store.messages, sub.name, msgs, j);
      ThePush(config, c, sub.name, m.ackID);
    }
  }

  lemma {:induction false} ThePush(cfg: D.Config, c: Circumstances, s: string, a: string)
    ensures var step := PushOf(cfg, c, s, a);
            && step == Pushed(s, a, D.Posts(cfg, c.net(a)), step.ok, c.pushTime(a))
            && (step.ok <==> exists k: nat :: k <= cfg.maxRetries && D.AcceptedAt(c.net(a), k))
  {
    hide D.AcceptedAt, D.Posts;
  }

  ghost function NamesOf(subs: seq<S.SubscriptionRecord>): (names: seq<string>)
    ensures |names| == |subs|
  {
    seq(|subs|, i requires 0 <= i < |subs| => subs[i].name)
  }

  lemma NameAt(subs: seq<S.SubscriptionRecord>, i: nat)
    requires i < |subs|
    ensures NamesOf(subs)[i] == subs[i].name
  {}

  lemma NothingYet(cfg: D.Config, c: Circumstances, st: State, names: seq<string>)
    ensures PushRun(st, RoundOf(cfg, c, st, names[..0])) == st
  {}

  lemma TakenOf(st: State, s: string, now: int)
    requires s in st.subs && s in st.queues
    ensures TakenIDs(st, s, now) == Candidates(st.queues[s], now)
  {}

  lemma ExecPullAll(st: State, s: string, now: int)
    ensures Exec(st, OpPullAll(s, now)) == PullAll(st, s, now)
  {}

  lemma PushedIsAnOp(st: State, s: string, a: string, posts: nat, now: int)
    ensures PushExec(st, Pushed(s, a, posts, true, now)) == Exec(st, OpAcknowledge(s, [a]))
    ensures PushExec(st, Pushed(s, a, posts, false, now)) ==
            if GivesUp(st, s, a) then Exec(st, OpForward(s, a, now)) else st
  {
    hide GivesUp, Acknowledge, Forward;
  }

  lemma StepMem(w: World, op: Op)
    ensures Step(w, Do(op)).mem == Exec(w.mem, op)
  {}
}
