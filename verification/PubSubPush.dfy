/** Push delivery over runs of the Pub/Sub emulator without a restart: it gives up on a message after a
  bounded number of attempts, whatever else goes on. */
module PubSubPush {
  import opened PubSubState
  import opened PubSubLeases

  // ---------- the push loop ----------

  /** A step of a run: the loop's pull of a subscription, the end of a dispatch that made `posts` POST
    requests, or anything else that happens. */
  datatype PushStep =
    | Tick(sub: string, now: int)
    | Pushed(sub: string, ackID: string, posts: nat, ok: bool, now: int)
    | Other(op: Op)

  ghost predicate GivesUp(st: State, s: string, ackID: string) {
    && Waiting(st, s, ackID)
    && st.subs[s].deadLetterTopic != "" && st.subs[s].maxDeliveryAttempts > 0
    && st.queues[s][ackID].attempt >= st.subs[s].maxDeliveryAttempts
  }

  /** An accepted push acknowledges; a failed one forwards the message once it has used up its attempts. */
  ghost function PushExec(st: State, step: PushStep): State {
    match step
    case Tick(sub, now) => PullAll(st, sub, now)
    case Pushed(sub, ackID, _, ok, now) =>
      if ok then Acknowledge(st, sub, [ackID])
      else if GivesUp(st, sub, ackID) then Forward(st, sub, ackID, now)
      else st
    case Other(op) => Exec(st, op)
  }

  /** The messages of `s` that were pulled by the current tick and are yet to be pushed. */
  ghost function Pending(st: State, s: string, pending: set<string>, step: PushStep): set<string> {
    match step
    case Tick(sub, now) => if sub == s then Due(st, s, now) else pending
    case Pushed(sub, ackID, _, _, _) => if sub == s then pending - {ackID} else pending
    case Other(_) => pending
  }

  ghost function Due(st: State, s: string, now: int): set<string> {
    set a | Waiting(st, s, a) && a in st.queues[s] && Available(st.queues[s][a], now)
  }

  /** The loop finishes a tick of `s` before it starts the next, and pushes what it pulled. Meanwhile
    anything may happen, but nobody else counts attempts on `s`, and `s` and its dead-letter topic stay. */
  ghost predicate Disciplined(st: State, s: string, pending: set<string>, step: PushStep) {
    match step
    case Tick(sub, _) => sub == s ==> pending == {}
    case Pushed(sub, ackID, _, _, _) => sub == s ==> ackID in pending
    case Other(op) =>
      && !(op.OpPullAll? && op.sub == s)
      && !(op.OpDeleteSubscription? && op.name == s)
      && (s in st.subs ==> !(op.OpDeleteTopic? && op.name == st.subs[s].deadLetterTopic))
  }

  /** `s` dead-letters to a topic that exists, after at most `max` attempts. */
  ghost predicate DeadLetters(st: State, s: string, max: int) {
    && s in st.subs && max > 0 && st.subs[s].maxDeliveryAttempts == max
    && st.subs[s].deadLetterTopic != "" && st.subs[s].deadLetterTopic in st.topics
  }

  /** Only messages whose push is pending can have used up their attempts, and none has exceeded them. */
  ghost predicate AttemptsBounded(st: State, s: string, max: int, pending: set<string>) {
    forall a :: Waiting(st, s, a) ==> st.queues[s][a].attempt <= max && (st.queues[s][a].attempt >= max ==> a in pending)
  }

  /** Another operation keeps the configuration, and what it leaves in the queue has the attempts it had,
    or is new. */
  lemma OthersKeepAttempts(st: State, op: Op, s: string, a: string, max: int)
    requires WellFormed(st) && DeadLetters(st, s, max) && Disciplined(st, s, {}, Other(op))
    ensures DeadLetters(Exec(st, op), s, max)
    ensures Waiting(Exec(st, op), s, a) ==>
              Exec(st, op).queues[s][a].attempt == if Waiting(st, s, a) then st.queues[s][a].attempt else 0
  {
    match op {
      case OpPublish(topic, inputs, now) => if topic in st.topics { PublishAllAttempts(st, topic, inputs, now, s, a); }
      case OpForward(sub, ackID, now) =>
        if CanForward(st, sub, ackID) {
          PublishOneAttempts(st, st.subs[sub].deadLetterTopic, st.queues[sub][ackID].payload, now, s, a);
          hide PublishOne;
        }
      case OpPull(_, _, _) => QueueOpAttempts(st, op, s, a, max);
      case OpAcknowledge(_, _) => QueueOpAttempts(st, op, s, a, max);
      case OpModifyAckDeadline(_, _, _, _) => QueueOpAttempts(st, op, s, a, max);
      case OpPullAll(_, _) => QueueOpAttempts(st, op, s, a, max);
      case _ => TopicOpAttempts(st, op, s, a, max);
    }
  }

  lemma QueueOpAttempts(st: State, op: Op, s: string, a: string, max: int)
    requires WellFormed(st) && DeadLetters(st, s, max) && Disciplined(st, s, {}, Other(op))
    requires op.OpPull? || op.OpAcknowledge? || op.OpModifyAckDeadline? || op.OpPullAll?
    ensures DeadLetters(Exec(st, op), s, max)
    ensures Waiting(Exec(st, op), s, a) ==> Waiting(st, s, a) && Exec(st, op).queues[s][a].attempt == st.queues[s][a].attempt
  {
    hide PulledIDs, QueueOk, Available;
  }

  lemma TopicOpAttempts(st: State, op: Op, s: string, a: string, max: int)
    requires WellFormed(st) && DeadLetters(st, s, max) && Disciplined(st, s, {}, Other(op))
    requires op.OpCreateTopic? || op.OpDeleteTopic? || op.OpCreateSubscription? || op.OpDeleteSubscription?
    ensures DeadLetters(Exec(st, op), s, max)
    ensures Waiting(Exec(st, op), s, a) ==> Waiting(st, s, a) && Exec(st, op).queues[s][a].attempt == st.queues[s][a].attempt
  {
    hide QueueOk, Recipients;
  }

  ghost predicate AttemptsKept(before: State, after: State, s: string, a: string) {
    && after.subs == before.subs && after.topics == before.topics
    && (Waiting(after, s, a) ==>
          after.queues[s][a].attempt == if Waiting(before, s, a) then before.queues[s][a].attempt else 0)
  }

  lemma PublishOneAttempts(st: State, topic: string, p: Payload, now: int, s: string, a: string)
    requires WellFormed(st)
    ensures AttemptsKept(st, PublishOne(st, topic, p, now), s, a)
  {
    if Waiting(st, s, a) {
      assert QueueOk(s, st.queues[s], st.counter);
      PublishOneKeeps(st, topic, p, now, s, a);
    }
  }

  lemma {:induction false} PublishAllAttempts(st: State, topic: string, inputs: seq<Payload>, now: int, s: string,
                                              a: string)
    requires WellFormed(st)
    ensures AttemptsKept(st, PublishAll(st, topic, inputs, now), s, a)
    decreases inputs
  {
    if inputs != [] {
      PublishOneAttempts(st, topic, inputs[0], now, s, a);
      PublishOneOk(st, topic, inputs[0], now);
      PublishAllAttempts(PublishOne(st, topic, inputs[0], now), topic, inputs[1..], now, s, a);
      if Waiting(st, s, a) { PublishKeepsMessage(st, topic, inputs[0], now, s, a); }
    }
  }

  lemma PublishKeepsMessage(st: State, topic: string, p: Payload, now: int, s: string, a: string)
    requires Waiting(st, s, a)
    ensures Waiting(PublishOne(st, topic, p, now), s, a)
  {}

  lemma TickBounds(st: State, s: string, max: int, now: int)
    requires WellFormed(st) && DeadLetters(st, s, max) && AttemptsBounded(st, s, max, {})
    ensures DeadLetters(PullAll(st, s, now), s, max)
    ensures AttemptsBounded(PullAll(st, s, now), s, max, Due(st, s, now))
  {
    hide Available, QueueOk;
    forall a | Waiting(PullAll(st, s, now), s, a)
      ensures var m := PullAll(st, s, now).queues[s][a];
              m.attempt <= max && (m.attempt >= max ==> a in Due(st, s, now))
    {
      assert Waiting(st, s, a);
    }
  }

  lemma PushedBounds(st: State, s: string, max: int, pending: set<string>, ackID: string, ok: bool, now: int)
    requires WellFormed(st) && DeadLetters(st, s, max) && AttemptsBounded(st, s, max, pending)
    ensures DeadLetters(PushExec(st, Pushed(s, ackID, 0, ok, now)), s, max)
    ensures AttemptsBounded(PushExec(st, Pushed(s, ackID, 0, ok, now)), s, max, pending - {ackID})
  {
    var next := PushExec(st, Pushed(s, ackID, 0, ok, now));
    if Waiting(st, s, ackID) { assert QueueOk(s, st.queues[s], st.counter); }
    forall a | Waiting(next, s, a)
      ensures next.queues[s][a].attempt <= max && (next.queues[s][a].attempt >= max ==> a in pending - {ackID})
    {
      if !ok && GivesUp(st, s, ackID) {
        PublishOneAttempts(st, st.subs[s].deadLetterTopic, st.queues[s][ackID].payload, now, s, a);
        hide PublishOne, AckID;
      }
    }
  }

  /** A step is an operation on the store, or leaves it alone. */
  ghost function AsOp(st: State, step: PushStep): Op
    requires !(step.Pushed? && !step.ok && !GivesUp(st, step.sub, step.ackID))
  {
    match step
    case Tick(sub, now) => OpPullAll(sub, now)
    case Pushed(sub, ackID, _, ok, now) => if ok then OpAcknowledge(sub, [ackID]) else OpForward(sub, ackID, now)
    case Other(op) => op
  }

  lemma StepIsAnOp(st: State, step: PushStep)
    ensures PushExec(st, step) ==
            if step.Pushed? && !step.ok && !GivesUp(st, step.sub, step.ackID) then st else Exec(st, AsOp(st, step))
  {
    hide GivesUp, Acknowledge, Forward, PullAll;
  }

  lemma PushExecOk(st: State, step: PushStep)
    requires WellFormed(st)
    ensures WellFormed(PushExec(st, step))
  {
    hide WellFormed, GivesUp, PushExec, Exec, AsOp;
    StepIsAnOp(st, step);
    if !(step.Pushed? && !step.ok && !GivesUp(st, step.sub, step.ackID)) { ExecOk(st, AsOp(st, step)); }
  }

  /** A step that is not the loop's work on `s` keeps its bound. */
  lemma OthersKeepBounds(st: State, s: string, max: int, pending: set<string>, op: Op)
    requires WellFormed(st) && DeadLetters(st, s, max) && AttemptsBounded(st, s, max, pending)
    requires Disciplined(st, s, {}, Other(op))
    ensures DeadLetters(Exec(st, op), s, max) && AttemptsBounded(Exec(st, op), s, max, pending)
  {
    hide WellFormed, DeadLetters, Exec, Disciplined;
    OthersKeepAttempts(st, op, s, "", max);
    MaxIsPositive(st, s, max);
    forall a | Waiting(Exec(st, op), s, a)
      ensures Exec(st, op).queues[s][a].attempt <= max && (Exec(st, op).queues[s][a].attempt >= max ==> a in pending)
    {
      OthersKeepAttempts(st, op, s, a, max);
    }
  }

  lemma MaxIsPositive(st: State, s: string, max: int)
    requires DeadLetters(st, s, max)
    ensures max > 0
  {}

  /** Every step of push delivery, whatever else goes on, keeps the attempts bounded. */
  lemma {:induction false} PushStepBounds(st: State, s: string, max: int, pending: set<string>, step: PushStep)
    requires WellFormed(st) && DeadLetters(st, s, max) && AttemptsBounded(st, s, max, pending)
    requires Disciplined(st, s, pending, step)
    ensures WellFormed(PushExec(st, step)) && DeadLetters(PushExec(st, step), s, max)
    ensures AttemptsBounded(PushExec(st, step), s, max, Pending(st, s, pending, step))
  {
    hide WellFormed, DeadLetters, AttemptsBounded, Exec, Acknowledge, Forward, PullAll, GivesUp, Due;
    PushExecOk(st, step);
    StepIsAnOp(st, step);
    if step.Tick? && step.sub == s {
      TickBounds(st, s, max, step.now);
    } else if step.Pushed? && step.sub == s {
      PushedBounds(st, s, max, pending, step.ackID, step.ok, step.now);
    } else if PushExec(st, step) != st {
      OthersKeepBounds(st, s, max, pending, AsOp(st, step));
    }
  }

  ghost function PushRun(st: State, steps: seq<PushStep>): State
    decreases steps
  {
    if steps == [] then st else PushRun(PushExec(st, steps[0]), steps[1..])
  }

  ghost function PendingAfter(st: State, s: string, pending: set<string>, steps: seq<PushStep>): set<string>
    decreases steps
  {
    if steps == [] then pending
    else PendingAfter(PushExec(st, steps[0]), s, Pending(st, s, pending, steps[0]), steps[1..])
  }

  ghost predicate DisciplinedRun(st: State, s: string, pending: set<string>, steps: seq<PushStep>)
    decreases steps
  {
    steps != [] ==>
      && Disciplined(st, s, pending, steps[0])
      && DisciplinedRun(PushExec(st, steps[0]), s, Pending(st, s, pending, steps[0]), steps[1..])
  }

  /** Push is bounded. At the end of every tick of a run - when no push is pending - every message left in
    the subscription has been attempted fewer than `max` times. */
  lemma {:induction false} PushIsBounded(st: State, s: string, max: int, pending: set<string>, steps: seq<PushStep>)
    requires WellFormed(st) && DeadLetters(st, s, max) && AttemptsBounded(st, s, max, pending)
    requires DisciplinedRun(st, s, pending, steps)
    ensures AttemptsBounded(PushRun(st, steps), s, max, PendingAfter(st, s, pending, steps))
    ensures PendingAfter(st, s, pending, steps) == {} ==>
              forall a :: Waiting(PushRun(st, steps), s, a) ==> PushRun(st, steps).queues[s][a].attempt < max
    decreases steps
  {
    if steps != [] {
      PushStepBounds(st, s, max, pending, steps[0]);
      PushIsBounded(PushExec(st, steps[0]), s, max, Pending(st, s, pending, steps[0]), steps[1..]);
    }
  }

  lemma {:induction false} PushRunConcat(st: State, a: seq<PushStep>, b: seq<PushStep>)
    ensures PushRun(st, a + b) == PushRun(PushRun(st, a), b)
    decreases a
  {
    if a == [] {
      assert a + b == b;
    } else {
      assert (a + b)[0] == a[0] && (a + b)[1..] == a[1..] + b;
      PushRunConcat(PushExec(st, a[0]), a[1..], b);
    }
  }

  /** The loop keeps its discipline over two runs when it does over each, the second going on from the
    first. */
  lemma {:induction false} DisciplineConcat(st: State, s: string, pending: set<string>, a: seq<PushStep>,
                                            b: seq<PushStep>)
    requires DisciplinedRun(st, s, pending, a)
    requires DisciplinedRun(PushRun(st, a), s, PendingAfter(st, s, pending, a), b)
    ensures DisciplinedRun(st, s, pending, a + b)
    ensures PendingAfter(st, s, pending, a + b) == PendingAfter(PushRun(st, a), s, PendingAfter(st, s, pending, a), b)
    decreases a
  {
    hide PushExec, Disciplined, Pending;
    if a == [] {
      assert a + b == b;
    } else {
      assert (a + b)[0] == a[0] && (a + b)[1..] == a[1..] + b;
      DisciplineConcat(PushExec(st, a[0]), s, Pending(st, s, pending, a[0]), a[1..], b);
    }
  }

  /** How often a tick takes the message for a push. */
  ghost function Dispatches(st: State, s: string, a: string, steps: seq<PushStep>): nat
    decreases steps
  {
    if steps == [] then 0
    else (if TakenBy(st, s, a, steps[0]) then 1 else 0) + Dispatches(PushExec(st, steps[0]), s, a, steps[1..])
  }

  ghost predicate TakenBy(st: State, s: string, a: string, step: PushStep) {
    step.Tick? && step.sub == s && Waiting(st, s, a) && Available(st.queues[s][a], step.now)
  }

  lemma PushExecKeeps(st: State, s: string, a: string, step: PushStep)
    requires WellFormed(st) && IssuedBy(s, a, st.counter)
    ensures IssuedBy(s, a, PushExec(st, step).counter)
    ensures Waiting(PushExec(st, step), s, a) ==> Waiting(st, s, a)
  {
    hide WellFormed, IssuedBy, Waiting, GivesUp, PushExec, Exec, AsOp;
    StepIsAnOp(st, step);
    if !(step.Pushed? && !step.ok && !GivesUp(st, step.sub, step.ackID)) { ComesFromBefore(st, AsOp(st, step), s, a); }
  }

  lemma ComesFromBefore(st: State, op: Op, s: string, a: string)
    requires WellFormed(st) && IssuedBy(s, a, st.counter)
    ensures IssuedBy(s, a, Exec(st, op).counter)
    ensures Waiting(Exec(st, op), s, a) ==> Waiting(st, s, a)
  {
    if Delivers(st, op, s, a) || ChangesLease(op, s, a) {
      hide PulledIDs, QueueOk, Deliver, Redeadline, Available;
    } else {
      OthersKeepLease(st, op, s, a);
    }
  }

  /** The attempts that a message has left: all of them, if it is yet to be published. */
  ghost function AttemptsLeft(st: State, s: string, a: string, max: int): int {
    if Waiting(st, s, a) then max - st.queues[s][a].attempt
    else if IssuedBy(s, a, st.counter) then 0
    else max
  }

  /** Each dispatch of a message is one of its attempts, so there are at most `max` of them. */
  lemma {:induction false} DispatchesAreBounded(st: State, s: string, a: string, max: int, pending: set<string>,
                                                steps: seq<PushStep>)
    requires WellFormed(st) && DeadLetters(st, s, max) && AttemptsBounded(st, s, max, pending)
    requires DisciplinedRun(st, s, pending, steps)
    ensures Dispatches(st, s, a, steps) <= AttemptsLeft(st, s, a, max)
    decreases steps
  {
    hide WellFormed, DeadLetters, PushExec, Pending, Disciplined, TakenBy, AttemptsLeft;
    if steps == [] {
      SomeAttemptsLeft(st, s, a, max, pending);
    } else {
      var next := PushExec(st, steps[0]);
      PushStepBounds(st, s, max, pending, steps[0]);
      DispatchesAreBounded(next, s, a, max, Pending(st, s, pending, steps[0]), steps[1..]);
      AttemptsAreUsed(st, s, a, max, pending, steps[0]);
    }
  }

  lemma SomeAttemptsLeft(st: State, s: string, a: string, max: int, pending: set<string>)
    requires DeadLetters(st, s, max) && AttemptsBounded(st, s, max, pending)
    ensures AttemptsLeft(st, s, a, max) >= 0
  {}

  /** A step leaves a message no more attempts than it had, and one fewer if it dispatches it. */
  lemma AttemptsAreUsed(st: State, s: string, a: string, max: int, pending: set<string>, step: PushStep)
    requires WellFormed(st) && DeadLetters(st, s, max) && AttemptsBounded(st, s, max, pending)
    requires Disciplined(st, s, pending, step)
    ensures AttemptsLeft(PushExec(st, step), s, a, max) + (if TakenBy(st, s, a, step) then 1 else 0)
            <= AttemptsLeft(st, s, a, max)
  {
    hide WellFormed, DeadLetters, PushExec, Pending, Disciplined, IssuedBy, AttemptsBounded, TakenBy;
    var next := PushExec(st, step);
    SomeAttemptsLeft(st, s, a, max, pending);
    PushStepBounds(st, s, max, pending, step);
    if TakenBy(st, s, a, step) { TakenStays(st, s, a, step); }
    if IssuedBy(s, a, st.counter) { PushExecKeeps(st, s, a, step); }
    if Waiting(st, s, a) { WaitingIsIssued(st, s, a); }
    if Waiting(next, s, a) {
      WaitingIsIssued(next, s, a);
      AttemptsGrow(st, s, a, max, pending, step);
    }
  }

  lemma WaitingIsIssued(st: State, s: string, a: string)
    requires WellFormed(st) && Waiting(st, s, a)
    ensures IssuedBy(s, a, st.counter)
  {
    assert QueueOk(s, st.queues[s], st.counter);
  }

  lemma TakenStays(st: State, s: string, a: string, step: PushStep)
    requires TakenBy(st, s, a, step)
    ensures Waiting(st, s, a) && Waiting(PushExec(st, step), s, a)
  {}

  /** A step raises the attempts of a waiting message by one if it dispatches it, and else not at all, and
    a message that it adds has none. */
  lemma AttemptsGrow(st: State, s: string, a: string, max: int, pending: set<string>, step: PushStep)
    requires WellFormed(st) && DeadLetters(st, s, max) && Disciplined(st, s, pending, step)
    requires Waiting(PushExec(st, step), s, a)
    ensures PushExec(st, step).queues[s][a].attempt ==
              (if Waiting(st, s, a) then st.queues[s][a].attempt else 0) + if TakenBy(st, s, a, step) then 1 else 0
  {
    StepIsAnOp(st, step);
    if step.Tick? && step.sub == s {
      hide WellFormed;
    } else if step.Pushed? && step.sub == s {
      PushedAddsNoAttempts(st, s, a, max, step);
    } else if PushExec(st, step) != st {
      OthersKeepAttempts(st, AsOp(st, step), s, a, max);
      hide PushExec, Exec, WellFormed;
    }
  }

  lemma PushedAddsNoAttempts(st: State, s: string, a: string, max: int, step: PushStep)
    requires WellFormed(st) && DeadLetters(st, s, max) && step.Pushed? && step.sub == s
    requires Waiting(PushExec(st, step), s, a)
    ensures PushExec(st, step).queues[s][a].attempt == if Waiting(st, s, a) then st.queues[s][a].attempt else 0
  {
    if !step.ok && GivesUp(st, s, step.ackID) {
      PublishOneAttempts(st, st.subs[s].deadLetterTopic, st.queues[s][step.ackID].payload, step.now, s, a);
      hide PublishOne;
    }
  }

  // ---------- a message whose every push fails ----------

  /** A push takes the message off when it was accepted; when it failed, the message stays as it is, unless
    its subscription dead-letters and it has used up its attempts: then it is forwarded. */
  lemma {:induction false} PushedMeans(st: State, s: string, a: string, posts: nat, ok: bool, now: int)
    requires WellFormed(st) && Waiting(st, s, a)
    ensures var after := PushExec(st, Pushed(s, a, posts, ok, now));
            var sub, m := st.subs[s], st.queues[s][a];
            after == if ok then Acknowledge(st, s, [a])
                     else if sub.deadLetterTopic != "" && 0 < sub.maxDeliveryAttempts <= m.attempt then Forward(st, s, a, now)
                     else st
  {
    hide Acknowledge, Forward;
  }

  /** The step does not take the message off, unless by giving up on it. */
  predicate Spares(step: PushStep, s: string, a: string) {
    match step
    case Tick(_, _) => true
    case Pushed(sub, ackID, _, ok, _) => !(sub == s && ackID == a && ok)
    case Other(op) =>
      && !(op.OpAcknowledge? && op.sub == s && a in op.ackIDs)
      && !(op.OpForward? && op.sub == s && op.ackID == a)
      && !(op.OpDeleteSubscription? && op.name == s)
  }

  lemma {:induction false} SparedStays(st: State, s: string, a: string, max: int, pending: set<string>, step: PushStep)
    requires WellFormed(st) && DeadLetters(st, s, max) && AttemptsBounded(st, s, max, pending)
    requires Waiting(st, s, a) && Spares(step, s, a) && !Waiting(PushExec(st, step), s, a)
    ensures st.queues[s][a].attempt == max && !TakenBy(st, s, a, step)
  {
    if step.Tick? {
      TickKeepsAll(st, step.sub, step.now, s, a);
    } else if step.Pushed? {
      PushedKeepsOthers(st, step, s, a);
    } else {
      OtherKeeps(st, step.op, s, a);
    }
  }

  lemma TickKeepsAll(st: State, sub: string, now: int, s: string, a: string)
    requires Waiting(st, s, a)
    ensures Waiting(PullAll(st, sub, now), s, a)
  {}

  lemma PushedKeepsOthers(st: State, step: PushStep, s: string, a: string)
    requires WellFormed(st) && step.Pushed? && Waiting(st, s, a) && !Waiting(PushExec(st, step), s, a)
    ensures step.sub == s && step.ackID == a
    ensures step.ok || st.queues[s][a].attempt >= st.subs[s].maxDeliveryAttempts
  {
    if GivesUp(st, step.sub, step.ackID) && CanForward(st, step.sub, step.ackID) {
      PublishKeepsMessage(st, st.subs[step.sub].deadLetterTopic, st.queues[step.sub][step.ackID].payload, step.now, s, a);
      assert QueueOk(step.sub, st.queues[step.sub], st.counter);
      hide PublishOne;
    }
  }

  lemma OtherKeeps(st: State, op: Op, s: string, a: string)
    requires WellFormed(st) && Waiting(st, s, a) && Spares(Other(op), s, a)
    ensures Waiting(Exec(st, op), s, a)
  {
    match op {
      case OpPublish(topic, inputs, now) => if topic in st.topics { PublishAllKeepsMessage(st, topic, inputs, now, s, a); }
      case OpForward(sub, ackID, now) =>
        if CanForward(st, sub, ackID) {
          PublishKeepsMessage(st, st.subs[sub].deadLetterTopic, st.queues[sub][ackID].payload, now, s, a);
          assert QueueOk(sub, st.queues[sub], st.counter);
          hide PublishOne;
        }
      case _ => RestKeeps(st, op, s, a);
    }
  }

  lemma RestKeeps(st: State, op: Op, s: string, a: string)
    requires WellFormed(st) && Waiting(st, s, a) && Spares(Other(op), s, a) && !op.OpPublish? && !op.OpForward?
    ensures Waiting(Exec(st, op), s, a)
  {
    hide PulledIDs, QueueOk, Available, Deliver, Attempt, Redeadline, IndexSound, IndexComplete, WithDefaults;
  }

  lemma {:induction false} PublishAllKeepsMessage(st: State, topic: string, inputs: seq<Payload>, now: int, s: string,
                                                  a: string)
    requires Waiting(st, s, a)
    ensures Waiting(PublishAll(st, topic, inputs, now), s, a)
    decreases inputs
  {
    if inputs != [] {
      PublishKeepsMessage(st, topic, inputs[0], now, s, a);
      PublishAllKeepsMessage(PublishOne(st, topic, inputs[0], now), topic, inputs[1..], now, s, a);
    }
  }

  ghost predicate AllSpare(steps: seq<PushStep>, s: string, a: string) {
    forall i :: 0 <= i < |steps| ==> Spares(steps[i], s, a)
  }

  /** A message that nobody else takes off stays while it has attempts left, each dispatch being one of them,
    and is gone only when all have been dispatched. */
  lemma {:induction false} DispatchedExactly(st: State, s: string, a: string, max: int, pending: set<string>,
                                             steps: seq<PushStep>)
    requires WellFormed(st) && DeadLetters(st, s, max) && AttemptsBounded(st, s, max, pending) && Waiting(st, s, a)
    requires DisciplinedRun(st, s, pending, steps) && AllSpare(steps, s, a)
    ensures var end, n := PushRun(st, steps), Dispatches(st, s, a, steps);
            if Waiting(end, s, a) then end.queues[s][a].attempt == st.queues[s][a].attempt + n
            else n == max - st.queues[s][a].attempt
    decreases steps
  {
    hide WellFormed, DeadLetters, PushExec, Pending, Disciplined, TakenBy, AttemptsBounded, IssuedBy;
    if steps != [] {
      var next := PushExec(st, steps[0]);
      PushStepBounds(st, s, max, pending, steps[0]);
      if Waiting(next, s, a) {
        AttemptsGrow(st, s, a, max, pending, steps[0]);
        assert forall i :: 0 <= i < |steps| - 1 ==> steps[1..][i] == steps[i + 1];
        DispatchedExactly(next, s, a, max, Pending(st, s, pending, steps[0]), steps[1..]);
      } else {
        SparedStays(st, s, a, max, pending, steps[0]);
        WaitingIsIssued(st, s, a);
        PushExecKeeps(st, s, a, steps[0]);
        GoneStays(next, s, a, steps[1..]);
      }
    }
  }

  lemma {:induction false} GoneStays(st: State, s: string, a: string, steps: seq<PushStep>)
    requires WellFormed(st) && IssuedBy(s, a, st.counter) && !Waiting(st, s, a)
    ensures !Waiting(PushRun(st, steps), s, a) && Dispatches(st, s, a, steps) == 0
    decreases steps
  {
    hide WellFormed, PushExec, IssuedBy, Waiting;
    if steps != [] {
      PushExecOk(st, steps[0]);
      PushExecKeeps(st, s, a, steps[0]);
      GoneStays(PushExec(st, steps[0]), s, a, steps[1..]);
    }
  }

  lemma {:induction false} DispatchesConcat(st: State, s: string, a: string, x: seq<PushStep>, y: seq<PushStep>)
    ensures Dispatches(st, s, a, x + y) == Dispatches(st, s, a, x) + Dispatches(PushRun(st, x), s, a, y)
    decreases x
  {
    hide PushExec, TakenBy;
    if x == [] {
      assert x + y == y;
    } else {
      assert (x + y)[0] == x[0] && (x + y)[1..] == x[1..] + y;
      DispatchesConcat(PushExec(st, x[0]), s, a, x[1..], y);
    }
  }

  // ---------- POST requests ----------

  ghost predicate IsPushOf(s: string, a: string, step: PushStep) {
    step.Pushed? && step.sub == s && step.ackID == a
  }

  ghost function Pushes(s: string, a: string, steps: seq<PushStep>): nat
    decreases steps
  {
    if steps == [] then 0 else (if IsPushOf(s, a, steps[0]) then 1 else 0) + Pushes(s, a, steps[1..])
  }

  /** The POST requests made for the message. */
  ghost function Posts(s: string, a: string, steps: seq<PushStep>): nat
    decreases steps
  {
    if steps == [] then 0 else (if IsPushOf(s, a, steps[0]) then steps[0].posts else 0) + Posts(s, a, steps[1..])
  }

  /** No dispatch makes more than `limit` requests. */
  ghost predicate EachPostsAtMost(steps: seq<PushStep>, limit: nat) {
    forall i :: 0 <= i < |steps| && steps[i].Pushed? ==> steps[i].posts <= limit
  }

  /** A message is pushed once for each time a tick takes it. */
  lemma {:induction false} PushesAreDispatched(st: State, s: string, a: string, pending: set<string>,
                                               steps: seq<PushStep>)
    requires DisciplinedRun(st, s, pending, steps)
    ensures Pushes(s, a, steps) <= Dispatches(st, s, a, steps) + if a in pending then 1 else 0
    decreases steps
  {
    if steps != [] {
      PushesAreDispatched(PushExec(st, steps[0]), s, a, Pending(st, s, pending, steps[0]), steps[1..]);
      hide PushExec, Available;
    }
  }

  lemma {:induction false} PostsPerPush(s: string, a: string, steps: seq<PushStep>, limit: nat)
    requires EachPostsAtMost(steps, limit)
    ensures Posts(s, a, steps) <= Pushes(s, a, steps) * limit
    decreases steps
  {
    if steps != [] {
      assert EachPostsAtMost(steps[1..], limit) by {
        assert forall i :: 0 <= i < |steps| - 1 ==> steps[1..][i] == steps[i + 1];
      }
      PostsPerPush(s, a, steps[1..], limit);
      OneMoreTimes(Pushes(s, a, steps[1..]), limit);
    }
  }

  lemma OneMoreTimes(n: nat, limit: nat)
    ensures (1 + n) * limit == limit + n * limit
  {}

  /** A message is POSTed at most `max * limit` times, where `limit` bounds the requests of one dispatch. */
  lemma {:induction false} PostsAreBounded(st: State, s: string, a: string, max: int, pending: set<string>,
                                           steps: seq<PushStep>, limit: nat)
    requires WellFormed(st) && DeadLetters(st, s, max) && AttemptsBounded(st, s, max, pending)
    requires DisciplinedRun(st, s, pending, steps) && EachPostsAtMost(steps, limit) && a !in pending
    ensures Posts(s, a, steps) <= max * limit
  {
    DispatchesAreBounded(st, s, a, max, pending, steps);
    PushesAreDispatched(st, s, a, pending, steps);
    PostsPerPush(s, a, steps, limit);
    MulMonotone(Pushes(s, a, steps), max, limit);
    assert AttemptsLeft(st, s, a, max) <= max;
  }

  /** From its creation on, a subscription that dead-letters has after every tick only messages with fewer
    than `max` attempts, and each is POSTed at most `max * limit` times. */
  lemma {:induction false} BoundedFromCreation(st: State, cfg: Subscription, max: int, steps: seq<PushStep>, limit: nat)
    requires WellFormed(st) && cfg.name !in st.subs && DeadLetters(Exec(st, OpCreateSubscription(cfg)), cfg.name, max)
    requires DisciplinedRun(Exec(st, OpCreateSubscription(cfg)), cfg.name, {}, steps) && EachPostsAtMost(steps, limit)
    ensures var start, s := Exec(st, OpCreateSubscription(cfg)), cfg.name;
            PendingAfter(start, s, {}, steps) == {} ==>
              forall a :: Waiting(PushRun(start, steps), s, a) ==> PushRun(start, steps).queues[s][a].attempt < max
    ensures forall a :: Posts(cfg.name, a, steps) <= max * limit
  {
    var start, s := Exec(st, OpCreateSubscription(cfg)), cfg.name;
    StartsEmpty(st, cfg, max);
    hide WellFormed, DeadLetters, Exec, DisciplinedRun, EachPostsAtMost, AttemptsBounded, Waiting;
    PushIsBounded(start, s, max, {}, steps);
    forall a ensures Posts(s, a, steps) <= max * limit {
      PostsAreBounded(start, s, a, max, {}, steps, limit);
    }
  }

  lemma StartsEmpty(st: State, cfg: Subscription, max: int)
    requires WellFormed(st) && cfg.name !in st.subs && DeadLetters(Exec(st, OpCreateSubscription(cfg)), cfg.name, max)
    ensures WellFormed(Exec(st, OpCreateSubscription(cfg)))
    ensures AttemptsBounded(Exec(st, OpCreateSubscription(cfg)), cfg.name, max, {})
  {
    ExecOk(st, OpCreateSubscription(cfg));
  }
}
