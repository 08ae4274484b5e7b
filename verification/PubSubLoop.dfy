/** The delivery loop as a run: which steps a tick of the loop takes, and that they keep the discipline on
  which the bounds of push delivery rest. */
module PubSubLoop {
  import opened Text
  import opened PubSubState
  import opened PubSubLeases
  import opened PubSubPush
  import D = Dispatch

  /** The dispatcher of the Pub/Sub service: four requests at most, a second between the first two. */
  const PUSH_CONFIG: D.Config := D.Config(3, 1_000_000_000, 2.0, 10_000_000_000)

  /** What a tick of the loop meets: when it pulls a subscription, when it is done with a message, and what
    the message's endpoint answers. */
  datatype Circumstances = Circumstances(pullTime: string -> int, pushTime: string -> int, net: string -> D.Script)

  // ---------- the steps of a tick ----------

  /** A message is dispatched, and what became of it decides the step. */
  ghost function PushOf(cfg: D.Config, c: Circumstances, s: string, a: string): PushStep {
    Pushed(s, a, D.Posts(cfg, c.net(a)), D.Succeeds(cfg, c.net(a)), c.pushTime(a))
  }

  ghost function PushesOf(cfg: D.Config, c: Circumstances, s: string, ids: seq<string>): (steps: seq<PushStep>)
    ensures |steps| == |ids|
  {
    seq(|ids|, i requires 0 <= i < |ids| => PushOf(cfg, c, s, AckID(s, ids[i])))
  }

  /** The IDs of the messages that a tick pulls, in the order it pushes them. */
  ghost function TakenIDs(st: State, s: string, now: int): seq<string> {
    if s in st.subs && s in st.queues then Candidates(st.queues[s], now) else []
  }

  /** One subscription's part of a tick: a pull, and a push of each message it took. */
  ghost function TickOf(cfg: D.Config, c: Circumstances, st: State, s: string): seq<PushStep> {
    [Tick(s, c.pullTime(s))] + PushesOf(cfg, c, s, TakenIDs(st, s, c.pullTime(s)))
  }

  /** The whole tick: the push subscriptions in turn. */
  ghost function RoundOf(cfg: D.Config, c: Circumstances, st: State, subs: seq<string>): seq<PushStep>
    decreases subs
  {
    if subs == [] then []
    else
      var before := RoundOf(cfg, c, st, subs[..|subs| - 1]);
      before + TickOf(cfg, c, PushRun(st, before), subs[|subs| - 1])
  }

  /** The subscriptions with a push endpoint, each once. */
  ghost predicate ListsPushed(subs: seq<string>, st: State) {
    && (forall s :: s in subs <==> s in st.subs && st.subs[s].pushEndpoint != "")
    && forall i, j :: 0 <= i < j < |subs| ==> subs[i] != subs[j]
  }

  // ---------- discipline ----------

  /** Pushes of other subscriptions do not concern `t`. */
  lemma {:induction false} OthersArePushed(cfg: D.Config, c: Circumstances, st: State, s: string, ids: seq<string>, t: string)
    requires s != t
    ensures var steps := PushesOf(cfg, c, s, ids);
            DisciplinedRun(st, t, {}, steps) && PendingAfter(st, t, {}, steps) == {}
    decreases ids
  {
    hide PushExec;
    if ids != [] {
      var steps := PushesOf(cfg, c, s, ids);
      assert steps[1..] == PushesOf(cfg, c, s, ids[1..]);
      OthersArePushed(cfg, c, PushExec(st, steps[0]), s, ids[1..], t);
    }
  }

  ghost function AckIDs(s: string, ids: seq<string>): set<string> {
    set id | id in ids :: AckID(s, id)
  }

  /** Pushing the pending messages one by one leaves none. */
  lemma {:induction false} PendingArePushed(cfg: D.Config, c: Circumstances, st: State, s: string, ids: seq<string>)
    requires forall i, j :: 0 <= i < j < |ids| ==> ids[i] != ids[j]
    ensures var steps := PushesOf(cfg, c, s, ids);
            DisciplinedRun(st, s, AckIDs(s, ids), steps) && PendingAfter(st, s, AckIDs(s, ids), steps) == {}
    decreases ids
  {
    hide PushExec;
    if ids != [] {
      var steps := PushesOf(cfg, c, s, ids);
      assert steps[1..] == PushesOf(cfg, c, s, ids[1..]);
      FirstIsPushed(s, ids);
      PendingArePushed(cfg, c, PushExec(st, steps[0]), s, ids[1..]);
    }
  }

  lemma FirstIsPushed(s: string, ids: seq<string>)
    requires ids != [] && forall i, j :: 0 <= i < j < |ids| ==> ids[i] != ids[j]
    ensures AckID(s, ids[0]) in AckIDs(s, ids) && AckIDs(s, ids) - {AckID(s, ids[0])} == AckIDs(s, ids[1..])
  {
    hide AckID;
    assert forall id :: id in ids <==> id == ids[0] || id in ids[1..];
    forall id | id in ids[1..] ensures AckID(s, id) != AckID(s, ids[0]) {
      SameIDs(s, id, ids[0]);
    }
  }

  lemma SameIDs(s: string, i: string, j: string)
    ensures AckID(s, i) == AckID(s, j) <==> i == j
  {
    assert AckID(s, i)[|s + ":"|..] == i && AckID(s, j)[|s + ":"|..] == j;
  }

  lemma {:induction false} TakenOnce(st: State, s: string, now: int)
    ensures var ids := TakenIDs(st, s, now); forall i, j :: 0 <= i < j < |ids| ==> ids[i] != ids[j]
  {
    var ids := TakenIDs(st, s, now);
    forall i, j | 0 <= i < j < |ids| ensures ids[i] != ids[j] {
      CompareAntisymmetric(ids[i], ids[j]);
    }
  }

  /** What a tick takes is all that is due. */
  lemma {:induction false} TakenAreDue(st: State, s: string, now: int)
    requires WellFormed(st)
    ensures Due(st, s, now) == AckIDs(s, TakenIDs(st, s, now))
  {
    hide AckID, Available, IssuedBy;
    if s in st.subs && s in st.queues {
      var q := st.queues[s];
      assert QueueOk(s, q, st.counter);
      forall a | a in Due(st, s, now) ensures a in AckIDs(s, Candidates(q, now)) {
        assert q[a].id in Candidates(q, now);
      }
    }
  }

  /** A tick of one subscription keeps the loop's discipline towards every subscription. */
  lemma {:induction false} TickIsDisciplined(cfg: D.Config, c: Circumstances, st: State, s: string, t: string)
    requires WellFormed(st)
    ensures var steps := TickOf(cfg, c, st, s);
            DisciplinedRun(st, t, {}, steps) && PendingAfter(st, t, {}, steps) == {}
  {
    hide WellFormed, PushExec, TakenIDs, PushesOf, Due;
    var now := c.pullTime(s);
    var ids := TakenIDs(st, s, now);
    var next := PushExec(st, Tick(s, now));
    assert TickOf(cfg, c, st, s)[1..] == PushesOf(cfg, c, s, ids);
    if s == t {
      TakenOnce(st, s, now);
      TakenAreDue(st, s, now);
      PendingArePushed(cfg, c, next, s, ids);
    } else {
      OthersArePushed(cfg, c, next, s, ids, t);
    }
  }

  lemma {:induction false} RunOk(st: State, steps: seq<PushStep>)
    requires WellFormed(st)
    ensures WellFormed(PushRun(st, steps))
    decreases steps
  {
    hide WellFormed, PushExec;
    if steps != [] {
      PushExecOk(st, steps[0]);
      RunOk(PushExec(st, steps[0]), steps[1..]);
    }
  }

  /** So does a whole tick, and when it ends no push is pending. */
  lemma {:induction false} RoundIsDisciplined(cfg: D.Config, c: Circumstances, st: State, subs: seq<string>, t: string)
    requires WellFormed(st)
    ensures var steps := RoundOf(cfg, c, st, subs);
            DisciplinedRun(st, t, {}, steps) && PendingAfter(st, t, {}, steps) == {}
    decreases subs
  {
    hide WellFormed, TickOf, PushExec;
    if subs != [] {
      var last := |subs| - 1;
      var before := RoundOf(cfg, c, st, subs[..last]);
      var mid := PushRun(st, before);
      RoundIsDisciplined(cfg, c, st, subs[..last], t);
      RunOk(st, before);
      TickIsDisciplined(cfg, c, mid, subs[last], t);
      DisciplineConcat(st, t, {}, before, TickOf(cfg, c, mid, subs[last]));
    }
  }

  // ---------- requests ----------

  function Limit(cfg: D.Config): nat {
    if cfg.maxRetries < 0 then 0 else cfg.maxRetries + 1
  }

  lemma {:induction false} RoundPosts(cfg: D.Config, c: Circumstances, st: State, subs: seq<string>)
    ensures EachPostsAtMost(RoundOf(cfg, c, st, subs), Limit(cfg))
    decreases subs
  {
    hide TakenIDs, PushRun, EachPostsAtMost, PushesOf, TickOf;
    if subs == [] {
      NothingPosts(Limit(cfg));
    } else {
      var before := RoundOf(cfg, c, st, subs[..|subs| - 1]);
      var tick := TickOf(cfg, c, PushRun(st, before), subs[|subs| - 1]);
      RoundPosts(cfg, c, st, subs[..|subs| - 1]);
      TickPosts(cfg, c, PushRun(st, before), subs[|subs| - 1]);
      PostsConcat(before, tick, Limit(cfg));
    }
  }

  lemma NothingPosts(limit: nat)
    ensures EachPostsAtMost([], limit)
  {}

  lemma TickPosts(cfg: D.Config, c: Circumstances, st: State, s: string)
    ensures EachPostsAtMost(TickOf(cfg, c, st, s), Limit(cfg))
  {
    hide TakenIDs;
  }

  lemma PostsConcat(a: seq<PushStep>, b: seq<PushStep>, limit: nat)
    requires EachPostsAtMost(a, limit) && EachPostsAtMost(b, limit)
    ensures EachPostsAtMost(a + b, limit)
  {}

  // ---------- the loop ----------

  /** What happens to the store: a tick of the loop, or a request from elsewhere. */
  datatype Turn =
    | Delivery(subs: seq<string>, c: Circumstances)
    | Request(op: Op)

  ghost function StepsOf(cfg: D.Config, st: State, turn: Turn): seq<PushStep> {
    match turn
    case Delivery(subs, c) => RoundOf(cfg, c, st, subs)
    case Request(op) => [Other(op)]
  }

  ghost function AllSteps(cfg: D.Config, st: State, turns: seq<Turn>): seq<PushStep>
    decreases turns
  {
    if turns == [] then []
    else
      var steps := StepsOf(cfg, st, turns[0]);
      steps + AllSteps(cfg, PushRun(st, steps), turns[1..])
  }

  /** No request counts attempts on `s`, or removes `s` or its dead-letter topic. */
  ghost predicate Undisturbed(cfg: D.Config, st: State, s: string, turns: seq<Turn>)
    decreases turns
  {
    turns != [] ==>
      && (turns[0].Request? ==> Disciplined(st, s, {}, Other(turns[0].op)))
      && Undisturbed(cfg, PushRun(st, StepsOf(cfg, st, turns[0])), s, turns[1..])
  }

  lemma {:induction false} TurnIsDisciplined(cfg: D.Config, st: State, s: string, turn: Turn)
    requires WellFormed(st) && (turn.Request? ==> Disciplined(st, s, {}, Other(turn.op)))
    ensures var steps := StepsOf(cfg, st, turn);
            DisciplinedRun(st, s, {}, steps) && PendingAfter(st, s, {}, steps) == {} && EachPostsAtMost(steps, Limit(cfg))
  {
    hide WellFormed, PushExec, Disciplined, RoundOf;
    match turn {
      case Delivery(subs, c) =>
        RoundIsDisciplined(cfg, c, st, subs, s);
        RoundPosts(cfg, c, st, subs);
      case Request(op) =>
        assert [Other(op)][1..] == [];
    }
  }

  lemma {:induction false} LoopIsDisciplined(cfg: D.Config, st: State, s: string, turns: seq<Turn>)
    requires WellFormed(st) && Undisturbed(cfg, st, s, turns)
    ensures var steps := AllSteps(cfg, st, turns);
            DisciplinedRun(st, s, {}, steps) && PendingAfter(st, s, {}, steps) == {} && EachPostsAtMost(steps, Limit(cfg))
    decreases turns
  {
    hide WellFormed, StepsOf, Disciplined, PushRun;
    if turns != [] {
      var steps := StepsOf(cfg, st, turns[0]);
      var next := PushRun(st, steps);
      TurnIsDisciplined(cfg, st, s, turns[0]);
      RunOk(st, steps);
      LoopIsDisciplined(cfg, next, s, turns[1..]);
      DisciplineConcat(st, s, {}, steps, AllSteps(cfg, next, turns[1..]));
    }
  }

  /** The loop gives up in time. Over any run of ticks of the loop and of requests between them, from the
    creation of a subscription that dead-letters after `max` attempts, no message is left in it with `max`
    attempts, and none is POSTed more than `max` times the requests of one dispatch. */
  lemma {:induction false} LoopIsBounded(cfg: D.Config, st: State, sub: Subscription, max: int, turns: seq<Turn>)
    requires WellFormed(st) && sub.name !in st.subs && DeadLetters(Exec(st, OpCreateSubscription(sub)), sub.name, max)
    requires Undisturbed(cfg, Exec(st, OpCreateSubscription(sub)), sub.name, turns)
    ensures var start := Exec(st, OpCreateSubscription(sub));
            var steps := AllSteps(cfg, start, turns);
            && (forall a :: Waiting(PushRun(start, steps), sub.name, a) ==>
                              PushRun(start, steps).queues[sub.name][a].attempt < max)
            && (forall a :: Posts(sub.name, a, steps) <= max * Limit(cfg))
  {
    hide WellFormed, DeadLetters, Exec, Undisturbed, AllSteps, Waiting;
    var start := Exec(st, OpCreateSubscription(sub));
    ExecOk(st, OpCreateSubscription(sub));
    LoopIsDisciplined(cfg, start, sub.name, turns);
    BoundedFromCreation(st, sub, max, AllSteps(cfg, start, turns), Limit(cfg));
  }

  // ---------- a message whose every push fails ----------

  /** The endpoint never accepts the message, and no request takes it off. */
  ghost predicate Failing(cfg: D.Config, s: string, a: string, turns: seq<Turn>) {
    forall i :: 0 <= i < |turns| ==> FailsIn(cfg, s, a, turns[i])
  }

  ghost predicate FailsIn(cfg: D.Config, s: string, a: string, turn: Turn) {
    match turn
    case Delivery(_, c) => !D.Succeeds(cfg, c.net(a))
    case Request(op) => Spares(Other(op), s, a)
  }

  lemma {:induction false} PushesSpare(cfg: D.Config, c: Circumstances, t: string, ids: seq<string>, s: string, a: string)
    requires !D.Succeeds(cfg, c.net(a))
    ensures AllSpare(PushesOf(cfg, c, t, ids), s, a)
  {}

  lemma SpareConcat(x: seq<PushStep>, y: seq<PushStep>, s: string, a: string)
    requires AllSpare(x, s, a) && AllSpare(y, s, a)
    ensures AllSpare(x + y, s, a)
  {
    hide Spares;
  }

  lemma {:induction false} RoundSpares(cfg: D.Config, c: Circumstances, st: State, subs: seq<string>, s: string, a: string)
    requires !D.Succeeds(cfg, c.net(a))
    ensures AllSpare(RoundOf(cfg, c, st, subs), s, a)
    decreases subs
  {
    hide AllSpare, PushesOf, TakenIDs, PushRun;
    if subs == [] {
      NothingSpares(s, a);
    } else {
      var last := |subs| - 1;
      var mid := PushRun(st, RoundOf(cfg, c, st, subs[..last]));
      RoundSpares(cfg, c, st, subs[..last], s, a);
      TickSpares(cfg, c, mid, subs[last], s, a);
      SpareConcat(RoundOf(cfg, c, st, subs[..last]), TickOf(cfg, c, mid, subs[last]), s, a);
    }
  }

  lemma NothingSpares(s: string, a: string)
    ensures AllSpare([], s, a)
  {}

  lemma TickSpares(cfg: D.Config, c: Circumstances, st: State, t: string, s: string, a: string)
    requires !D.Succeeds(cfg, c.net(a))
    ensures AllSpare(TickOf(cfg, c, st, t), s, a)
  {
    hide TakenIDs;
    PushesSpare(cfg, c, t, TakenIDs(st, t, c.pullTime(t)), s, a);
  }

  lemma {:induction false} TurnsSpare(cfg: D.Config, st: State, s: string, a: string, turns: seq<Turn>)
    requires Failing(cfg, s, a, turns)
    ensures AllSpare(AllSteps(cfg, st, turns), s, a)
    decreases turns
  {
    hide AllSpare, RoundOf, PushRun, D.Succeeds, Spares;
    if turns == [] {
      NothingSpares(s, a);
    } else {
      var steps := StepsOf(cfg, st, turns[0]);
      assert FailsIn(cfg, s, a, turns[0]);
      match turns[0] {
        case Delivery(subs, c) => RoundSpares(cfg, c, st, subs, s, a);
        case Request(op) => OneSpares(op, s, a);
      }
      assert forall i :: 0 <= i < |turns| - 1 ==> turns[1..][i] == turns[i + 1];
      TurnsSpare(cfg, PushRun(st, steps), s, a, turns[1..]);
      SpareConcat(steps, AllSteps(cfg, PushRun(st, steps), turns[1..]), s, a);
    }
  }

  lemma OneSpares(op: Op, s: string, a: string)
    requires Spares(Other(op), s, a)
    ensures AllSpare([Other(op)], s, a)
  {}

  /** The turn is a tick that comes to the subscription when the message is free to be delivered. */
  ghost predicate Reaches(st: State, s: string, a: string, turn: Turn) {
    turn.Delivery? && s in turn.subs && Waiting(st, s, a) && Available(st.queues[s][a], turn.c.pullTime(s))
  }

  ghost function Reached(cfg: D.Config, st: State, s: string, a: string, turns: seq<Turn>): nat
    decreases turns
  {
    if turns == [] then 0
    else (if Reaches(st, s, a, turns[0]) then 1 else 0) + Reached(cfg, PushRun(st, StepsOf(cfg, st, turns[0])), s, a, turns[1..])
  }

  /** The loop's work on another subscription leaves the message as it is. */
  lemma {:induction false} OthersLeaveIt(st: State, s: string, a: string, steps: seq<PushStep>)
    requires WellFormed(st) && Waiting(st, s, a) && forall i :: 0 <= i < |steps| ==> IsElsewhere(steps[i], s)
    ensures WellFormed(PushRun(st, steps))
    ensures Waiting(PushRun(st, steps), s, a) && PushRun(st, steps).queues[s][a] == st.queues[s][a]
    decreases steps
  {
    hide WellFormed, PushExec, Waiting;
    if steps != [] {
      PushExecOk(st, steps[0]);
      assert IsElsewhere(steps[0], s);
      StepElsewhere(st, s, a, steps[0]);
      assert forall i :: 0 <= i < |steps| - 1 ==> steps[1..][i] == steps[i + 1];
      OthersLeaveIt(PushExec(st, steps[0]), s, a, steps[1..]);
    }
  }

  predicate IsElsewhere(step: PushStep, s: string) {
    (step.Tick? || step.Pushed?) && step.sub != s
  }

  lemma {:induction false} StepElsewhere(st: State, s: string, a: string, step: PushStep)
    requires WellFormed(st) && Waiting(st, s, a) && IsElsewhere(step, s)
    ensures s in st.queues && a in st.queues[s]
    ensures Waiting(PushExec(st, step), s, a) && s in PushExec(st, step).queues && a in PushExec(st, step).queues[s]
    ensures PushExec(st, step).queues[s][a] == st.queues[s][a]
  {
    hide Exec, GivesUp, AsOp, PushExec, Delivers, ChangesLease;
    StepIsAnOp(st, step);
    if PushExec(st, step) != st {
      WaitingIsIssued(st, s, a);
      StaysElsewhere(st, step, s, a);
      NotItsOp(st, step, s, a);
      OthersKeepLease(st, AsOp(st, step), s, a);
    }
  }

  lemma StaysElsewhere(st: State, step: PushStep, s: string, a: string)
    requires WellFormed(st) && Waiting(st, s, a) && IsElsewhere(step, s)
    ensures Waiting(PushExec(st, step), s, a)
  {
    hide WellFormed, PushExec;
    if step.Tick? {
      TickKeepsAll(st, step.sub, step.now, s, a);
      TickIsPullAll(st, step);
    } else if !Waiting(PushExec(st, step), s, a) {
      PushedKeepsOthers(st, step, s, a);
    }
  }

  lemma TickIsPullAll(st: State, step: PushStep)
    requires step.Tick?
    ensures PushExec(st, step) == PullAll(st, step.sub, step.now)
  {}

  lemma NotItsOp(st: State, step: PushStep, s: string, a: string)
    requires IsElsewhere(step, s)
    requires !(step.Pushed? && !step.ok && !GivesUp(st, step.sub, step.ackID))
    ensures !Delivers(st, AsOp(st, step), s, a) && !ChangesLease(AsOp(st, step), s, a)
  {
    hide GivesUp;
  }

  lemma {:induction false} TickIsElsewhere(cfg: D.Config, c: Circumstances, st: State, t: string, s: string)
    requires t != s
    ensures forall i :: 0 <= i < |TickOf(cfg, c, st, t)| ==> IsElsewhere(TickOf(cfg, c, st, t)[i], s)
  {
    hide TakenIDs;
  }

  lemma {:induction false} RoundIsElsewhere(cfg: D.Config, c: Circumstances, st: State, subs: seq<string>, s: string)
    requires s !in subs
    ensures forall i :: 0 <= i < |RoundOf(cfg, c, st, subs)| ==> IsElsewhere(RoundOf(cfg, c, st, subs)[i], s)
    decreases subs
  {
    hide TickOf, PushRun, IsElsewhere;
    if subs != [] {
      var last := |subs| - 1;
      RoundIsElsewhere(cfg, c, st, subs[..last], s);
      TickIsElsewhere(cfg, c, PushRun(st, RoundOf(cfg, c, st, subs[..last])), subs[last], s);
    }
  }

  /** A tick that reaches the message dispatches it. */
  lemma {:induction false} RoundDispatches(cfg: D.Config, c: Circumstances, st: State, subs: seq<string>, s: string, a: string)
    requires WellFormed(st) && s in subs && Waiting(st, s, a) && Available(st.queues[s][a], c.pullTime(s))
    ensures Dispatches(st, s, a, RoundOf(cfg, c, st, subs)) >= 1
    decreases subs
  {
    hide WellFormed, TickOf, PushRun, Dispatches, Available, IsElsewhere;
    var last := |subs| - 1;
    var before := RoundOf(cfg, c, st, subs[..last]);
    var mid := PushRun(st, before);
    DispatchesConcat(st, s, a, before, TickOf(cfg, c, mid, subs[last]));
    if s in subs[..last] {
      RoundDispatches(cfg, c, st, subs[..last], s, a);
    } else {
      assert subs == subs[..last] + [subs[last]];
      RoundIsElsewhere(cfg, c, st, subs[..last], s);
      OthersLeaveIt(st, s, a, before);
      TickDispatches(cfg, c, mid, s, a);
    }
  }

  lemma TickDispatches(cfg: D.Config, c: Circumstances, st: State, s: string, a: string)
    requires Waiting(st, s, a) && Available(st.queues[s][a], c.pullTime(s))
    ensures Dispatches(st, s, a, TickOf(cfg, c, st, s)) >= 1
  {
    hide TakenIDs, PushExec, Available;
    assert TickOf(cfg, c, st, s)[0] == Tick(s, c.pullTime(s));
  }

  lemma {:induction false} ReachedAreDispatched(cfg: D.Config, st: State, s: string, a: string, turns: seq<Turn>)
    requires WellFormed(st)
    ensures Reached(cfg, st, s, a, turns) <= Dispatches(st, s, a, AllSteps(cfg, st, turns))
    decreases turns
  {
    hide WellFormed, Dispatches, RoundOf, PushRun, Available;
    if turns != [] {
      var steps := StepsOf(cfg, st, turns[0]);
      var next := PushRun(st, steps);
      RunOk(st, steps);
      DispatchesConcat(st, s, a, steps, AllSteps(cfg, next, turns[1..]));
      ReachedAreDispatched(cfg, next, s, a, turns[1..]);
      if Reaches(st, s, a, turns[0]) { RoundDispatches(cfg, turns[0].c, st, turns[0].subs, s, a); }
    }
  }

  /** A message whose every push fails is dispatched exactly as often as its subscription allows, and then
    taken off: it is there as long as it has attempts left, and gone once as many ticks have come to it when
    it was free. */
  lemma {:induction false} FailsExactly(cfg: D.Config, st: State, s: string, max: int, a: string, turns: seq<Turn>)
    requires WellFormed(st) && DeadLetters(st, s, max) && AttemptsBounded(st, s, max, {}) && Waiting(st, s, a)
    requires Undisturbed(cfg, st, s, turns) && Failing(cfg, s, a, turns)
    ensures var end, n := PushRun(st, AllSteps(cfg, st, turns)), Dispatches(st, s, a, AllSteps(cfg, st, turns));
            && (if Waiting(end, s, a) then end.queues[s][a].attempt == st.queues[s][a].attempt + n < max
                else n == max - st.queues[s][a].attempt)
            && (Reached(cfg, st, s, a, turns) >= max - st.queues[s][a].attempt ==> !Waiting(end, s, a))
  {
    hide WellFormed, DeadLetters, AttemptsBounded, Undisturbed, Failing, AllSpare, DisciplinedRun, Dispatches, Reached;
    hide AllSteps, PushRun;
    var steps := AllSteps(cfg, st, turns);
    LoopIsDisciplined(cfg, st, s, turns);
    TurnsSpare(cfg, st, s, a, turns);
    DispatchedExactly(st, s, a, max, {}, steps);
    PushIsBounded(st, s, max, {}, steps);
    ReachedAreDispatched(cfg, st, s, a, turns);
  }

  // ---------- every subscription at once ----------

  /** In every subscription that dead-letters, the waiting messages have attempts left. */
  ghost predicate AllBounded(st: State) {
    forall t :: t in st.subs && DeadLetters(st, t, st.subs[t].maxDeliveryAttempts) ==>
      AttemptsBounded(st, t, st.subs[t].maxDeliveryAttempts, {})
  }

  /** Ticks and pushes leave the topics and the subscriptions alone. */
  lemma {:induction false} RunKeepsConfig(st: State, steps: seq<PushStep>)
    requires forall step :: step in steps ==> !step.Other?
    ensures PushRun(st, steps).subs == st.subs && PushRun(st, steps).topics == st.topics
    decreases steps
  {
    hide AllPulled, FanOut, GivesUp;
    if steps != [] {
      assert steps[0] in steps;
      RunKeepsConfig(PushExec(st, steps[0]), steps[1..]);
    }
  }

  lemma {:induction false} NoOthers(cfg: D.Config, c: Circumstances, st: State, subs: seq<string>)
    ensures forall step :: step in RoundOf(cfg, c, st, subs) ==> !step.Other?
    decreases subs
  {
    hide TakenIDs, PushRun, TickOf;
    if subs != [] {
      var before := RoundOf(cfg, c, st, subs[..|subs| - 1]);
      NoOthers(cfg, c, st, subs[..|subs| - 1]);
      NoOthersInTick(cfg, c, PushRun(st, before), subs[|subs| - 1]);
    }
  }

  lemma NoOthersInTick(cfg: D.Config, c: Circumstances, st: State, s: string)
    ensures forall step :: step in TickOf(cfg, c, st, s) ==> !step.Other?
  {
    hide TakenIDs;
  }

  /** A tick of the loop keeps all bounds. */
  lemma {:induction false} RoundKeepsBounds(cfg: D.Config, c: Circumstances, st: State, subs: seq<string>)
    requires WellFormed(st) && AllBounded(st)
    ensures AllBounded(PushRun(st, RoundOf(cfg, c, st, subs)))
  {
    hide WellFormed, AttemptsBounded, RoundOf, PushRun;
    var steps := RoundOf(cfg, c, st, subs);
    var end := PushRun(st, steps);
    NoOthers(cfg, c, st, subs);
    RunKeepsConfig(st, steps);
    forall t | t in end.subs && DeadLetters(end, t, end.subs[t].maxDeliveryAttempts)
      ensures AttemptsBounded(end, t, end.subs[t].maxDeliveryAttempts, {})
    {
      RoundIsDisciplined(cfg, c, st, subs, t);
      PushIsBounded(st, t, st.subs[t].maxDeliveryAttempts, {}, steps);
    }
  }
}
