/** Leases over runs of the Pub/Sub emulator without a restart: a delivered message is out of reach until
  its deadline has passed. */
module PubSubLeases {
  import opened Text
  import opened GoTime
  import opened PubSubState

  ghost function Run(st: State, ops: seq<Op>): State
    decreases ops
  {
    if ops == [] then st else Run(Exec(st, ops[0]), ops[1..])
  }

  // ---------- deliveries ----------

  ghost predicate Waiting(st: State, s: string, a: string) {
    s in st.subs && s in st.queues && a in st.queues[s]
  }

  /** The operation hands message `a` of subscription `s` to a consumer. */
  ghost predicate Delivers(st: State, op: Op, s: string, a: string) {
    && Waiting(st, s, a)
    && match op
       case OpPull(sub, max, now) => sub == s && st.queues[s][a].id in PulledIDs(st, s, max, now)
       case OpPullAll(sub, now) => sub == s && Available(st.queues[s][a], now)
       case _ => false
  }

  function TimeOf(op: Op): int {
    match op
    case OpPull(_, _, now) => now
    case OpPullAll(_, now) => now
    case _ => 0
  }

  /** The consumer gives up or changes its lease on the message. */
  predicate ChangesLease(op: Op, s: string, a: string) {
    op.OpModifyAckDeadline? && op.sub == s && a in op.ackIDs
  }

  ghost predicate NoLeaseChange(ops: seq<Op>, s: string, a: string) {
    forall i :: 0 <= i < |ops| ==> !ChangesLease(ops[i], s, a)
  }

  lemma PulledAreAvailable(st: State, s: string, a: string, max: int, now: int)
    requires WellFormed(st) && Waiting(st, s, a) && st.queues[s][a].id in PulledIDs(st, s, max, now)
    ensures Available(st.queues[s][a], now)
  {
    var q := st.queues[s];
    var id := q[a].id;
    assert id in Candidates(q, now);
    var b :| b in q && Available(q[b], now) && q[b].id == id;
    assert QueueOk(s, q, st.counter);
  }

  /** Only an available message is delivered, and its lease then runs for the subscription's deadline. */
  lemma {:induction false} DeliveryTakesLease(st: State, op: Op, s: string, a: string)
    requires WellFormed(st) && Delivers(st, op, s, a)
    ensures Available(st.queues[s][a], TimeOf(op))
    ensures var m := Exec(st, op).queues[s][a];
            m.delivered && m.ackDeadline == TimeOf(op) + st.subs[s].ackDeadlineSeconds * SECOND
    ensures Waiting(Exec(st, op), s, a)
  {
    if op.OpPull? { PulledAreAvailable(st, s, a, op.max, op.now); }
  }

  /** Setting the deadline to zero makes a message available at once, and at any time; another deadline
    keeps a delivered message from everyone else until it has passed. */
  lemma {:induction false} DeadlineChange(st: State, sub: string, ackIDs: seq<string>, a: string, seconds: int, now: int, later: int)
    requires Waiting(st, sub, a) && a in ackIDs
    ensures var after := ModifyAckDeadline(st, sub, ackIDs, seconds, now);
            && Waiting(after, sub, a)
            && (seconds == 0 ==> Available(after.queues[sub][a], later))
            && (seconds != 0 && st.queues[sub][a].delivered ==>
                  (Available(after.queues[sub][a], later) <==> later > now + seconds * SECOND))
  {}

  // ---------- lease exclusivity ----------

  /** As long as the message waits, it is leased at least until `until`; and it was issued, so once gone it
    does not come back. The subscription, while the message waits, has the ack deadline `seconds`. */
  ghost predicate Leased(st: State, s: string, a: string, until: int, seconds: int) {
    && IssuedBy(s, a, st.counter)
    && (Waiting(st, s, a) ==>
          && st.queues[s][a].delivered && st.queues[s][a].ackDeadline >= until
          && st.subs[s].ackDeadlineSeconds == seconds)
  }

  /** An operation that neither delivers the message nor changes its lease leaves the lease alone, or
    takes the message off. */
  lemma OthersKeepLease(st: State, op: Op, s: string, a: string)
    requires WellFormed(st) && IssuedBy(s, a, st.counter)
    requires !Delivers(st, op, s, a) && !ChangesLease(op, s, a)
    ensures IssuedBy(s, a, Exec(st, op).counter)
    ensures KeepsLease(st, Exec(st, op), s, a)
  {
    match op {
      case OpPublish(topic, inputs, now) =>
        if topic in st.topics { PublishAllKeeps(st, topic, inputs, now, s, a); }
      case OpForward(sub, ackID, now) =>
        if CanForward(st, sub, ackID) {
          PublishOneKeeps(st, st.subs[sub].deadLetterTopic, st.queues[sub][ackID].payload, now, s, a);
          hide PublishOne, IssuedBy;
        }
      case OpPull(_, _, _) => QueueOpKeeps(st, op, s, a);
      case OpAcknowledge(_, _) => QueueOpKeeps(st, op, s, a);
      case OpModifyAckDeadline(_, _, _, _) => QueueOpKeeps(st, op, s, a);
      case OpPullAll(_, _) => QueueOpKeeps(st, op, s, a);
      case _ => TopicOpKeeps(st, op, s, a);
    }
  }

  ghost predicate KeepsLease(before: State, after: State, s: string, a: string) {
    Waiting(after, s, a) ==>
      && Waiting(before, s, a)
      && after.queues[s][a] == before.queues[s][a]
      && after.subs[s].ackDeadlineSeconds == before.subs[s].ackDeadlineSeconds
  }

  lemma QueueOpKeeps(st: State, op: Op, s: string, a: string)
    requires WellFormed(st) && !Delivers(st, op, s, a) && !ChangesLease(op, s, a)
    requires op.OpPull? || op.OpAcknowledge? || op.OpModifyAckDeadline? || op.OpPullAll?
    ensures Exec(st, op).counter == st.counter && KeepsLease(st, Exec(st, op), s, a)
  {
    hide PulledIDs, QueueOk, Deliver, Redeadline, Available;
  }

  lemma TopicOpKeeps(st: State, op: Op, s: string, a: string)
    requires WellFormed(st)
    requires op.OpCreateTopic? || op.OpDeleteTopic? || op.OpCreateSubscription? || op.OpDeleteSubscription?
    ensures Exec(st, op).counter == st.counter && KeepsLease(st, Exec(st, op), s, a)
  {
    hide QueueOk, Recipients;
  }

  lemma {:induction false} PublishOneKeeps(st: State, topic: string, p: Payload, now: int, s: string, a: string)
    requires WellFormed(st) && IssuedBy(s, a, st.counter)
    ensures var next := PublishOne(st, topic, p, now);
            && IssuedBy(s, a, next.counter) && next.subs == st.subs
            && KeepsLease(st, next, s, a)
  {
    var n: nat :| 1 <= n <= st.counter && a == NthAckID(s, n);
    assert 1 <= n <= st.counter + 1;
    if a == NthAckID(s, st.counter + 1) { AckIDInjective(s, n, s, st.counter + 1); }
  }

  lemma {:induction false} PublishAllKeeps(st: State, topic: string, inputs: seq<Payload>, now: int, s: string,
                                           a: string)
    requires WellFormed(st) && IssuedBy(s, a, st.counter)
    ensures var next := PublishAll(st, topic, inputs, now);
            && IssuedBy(s, a, next.counter) && next.subs == st.subs
            && KeepsLease(st, next, s, a)
    decreases inputs
  {
    if inputs != [] {
      PublishOneKeeps(st, topic, inputs[0], now, s, a);
      PublishOneOk(st, topic, inputs[0], now);
      PublishAllKeeps(PublishOne(st, topic, inputs[0], now), topic, inputs[1..], now, s, a);
    }
  }

  lemma ExecKeepsLease(st: State, op: Op, s: string, a: string, until: int, seconds: int)
    requires WellFormed(st) && Leased(st, s, a, until, seconds) && seconds > 0 && !ChangesLease(op, s, a)
    ensures Leased(Exec(st, op), s, a, until, seconds)
    ensures Delivers(st, op, s, a) ==> TimeOf(op) > until
  {
    if Delivers(st, op, s, a) {
      DeliveryTakesLease(st, op, s, a);
    } else {
      OthersKeepLease(st, op, s, a);
    }
  }

  lemma {:induction false} LeaseHolds(st: State, ops: seq<Op>, k: nat, s: string, a: string, until: int, seconds: int)
    requires WellFormed(st) && Leased(st, s, a, until, seconds) && seconds > 0
    requires k < |ops| && NoLeaseChange(ops[..k], s, a) && Delivers(Run(st, ops[..k]), ops[k], s, a)
    ensures TimeOf(ops[k]) > until
    decreases k
  {
    if k == 0 {
      ExecKeepsLease(st, ops[0], s, a, until, seconds);
    } else {
      assert !ChangesLease(ops[..k][0], s, a);
      ExecKeepsLease(st, ops[0], s, a, until, seconds);
      ExecOk(st, ops[0]);
      PrefixOfRest(ops, k, s, a);
      hide WellFormed, Leased, Exec, Delivers, NoLeaseChange;
      LeaseHolds(Exec(st, ops[0]), ops[1..], k - 1, s, a, until, seconds);
    }
  }

  lemma PrefixOfRest(ops: seq<Op>, k: nat, s: string, a: string)
    requires 0 < k <= |ops| && NoLeaseChange(ops[..k], s, a)
    ensures ops[..k][1..] == ops[1..][..k - 1] && NoLeaseChange(ops[1..][..k - 1], s, a)
  {
    var rest := ops[..k][1..];
    assert rest == ops[1..][..k - 1];
    forall i | 0 <= i < |rest| ensures !ChangesLease(rest[i], s, a) {
      assert rest[i] == ops[..k][i + 1];
    }
  }

  /** Two deliveries of one message, with no change of its lease between them, are more than the ack
    deadline apart - in any run, under any clock; and the ack deadline is positive. */
  lemma {:induction false} DeliveriesAreApart(st: State, ops: seq<Op>, k: nat, s: string, a: string)
    requires WellFormed(st) && 0 < k < |ops|
    requires Delivers(st, ops[0], s, a) && Delivers(Run(st, ops[..k]), ops[k], s, a)
    requires NoLeaseChange(ops[..k], s, a)
    ensures st.subs[s].ackDeadlineSeconds > 0
    ensures TimeOf(ops[k]) > TimeOf(ops[0]) + st.subs[s].ackDeadlineSeconds * SECOND
  {
    hide WellFormed, Leased, Exec, Delivers, NoLeaseChange, Run;
    DeliveryLeases(st, ops[0], s, a);
    PrefixOfRest(ops, k, s, a);
    var seconds := st.subs[s].ackDeadlineSeconds;
    RunFirst(st, ops, k);
    LeaseHolds(Exec(st, ops[0]), ops[1..], k - 1, s, a, TimeOf(ops[0]) + seconds * SECOND, seconds);
  }

  lemma RunFirst(st: State, ops: seq<Op>, k: nat)
    requires 0 < k <= |ops|
    ensures Run(st, ops[..k]) == Run(Exec(st, ops[0]), ops[..k][1..])
  {}

  lemma DeliveryLeases(st: State, op: Op, s: string, a: string)
    requires WellFormed(st) && Delivers(st, op, s, a)
    ensures s in st.subs && st.subs[s].ackDeadlineSeconds > 0 && WellFormed(Exec(st, op))
    ensures Leased(Exec(st, op), s, a, TimeOf(op) + st.subs[s].ackDeadlineSeconds * SECOND, st.subs[s].ackDeadlineSeconds)
  {
    hide Exec, IssuedBy;
    ExecOk(st, op);
    DeliveryTakesLease(st, op, s, a);
    DeliveryKeepsDeadline(st, op, s, a);
  }

  lemma DeliveryKeepsDeadline(st: State, op: Op, s: string, a: string)
    requires WellFormed(st) && Delivers(st, op, s, a)
    ensures Exec(st, op).subs == st.subs && IssuedBy(s, a, Exec(st, op).counter)
  {
    assert QueueOk(s, st.queues[s], st.counter);
  }

  // ---------- how often a message is delivered ----------

  /** When the message is delivered, in a run. */
  ghost function DeliveryTimes(st: State, ops: seq<Op>, s: string, a: string): seq<int>
    decreases ops
  {
    if ops == [] then []
    else
      (if Delivers(st, ops[0], s, a) then [TimeOf(ops[0])] else []) + DeliveryTimes(Exec(st, ops[0]), ops[1..], s, a)
  }

  ghost predicate Spaced(times: seq<int>, gap: int) {
    forall i :: 0 <= i < |times| - 1 ==> times[i + 1] > times[i] + gap
  }

  /** From a leased state on, the deliveries come after the lease and are more than the deadline apart. */
  lemma {:induction false} LeasedDeliveriesSpaced(st: State, ops: seq<Op>, s: string, a: string, until: int,
                                                  seconds: int)
    requires WellFormed(st) && Leased(st, s, a, until, seconds) && seconds > 0 && NoLeaseChange(ops, s, a)
    ensures var times := DeliveryTimes(st, ops, s, a);
            Spaced(times, seconds * SECOND) && (times != [] ==> times[0] > until)
    decreases ops
  {
    if ops != [] {
      var next := Exec(st, ops[0]);
      assert !ChangesLease(ops[0], s, a);
      assert forall i :: 0 <= i < |ops| - 1 ==> ops[1..][i] == ops[i + 1];
      ExecOk(st, ops[0]);
      ExecKeepsLease(st, ops[0], s, a, until, seconds);
      if Delivers(st, ops[0], s, a) {
        var until' := TimeOf(ops[0]) + seconds * SECOND;
        DeliveryTakesLease(st, ops[0], s, a);
        LeasedDeliveriesSpaced(next, ops[1..], s, a, until', seconds);
      } else {
        LeasedDeliveriesSpaced(next, ops[1..], s, a, until, seconds);
      }
    }
  }

  lemma {:induction false} SpacedBound(times: seq<int>, gap: nat)
    requires Spaced(times, gap) && times != []
    ensures (|times| - 1) * gap <= times[|times| - 1] - times[0]
  {
    if |times| > 1 {
      var front := times[..|times| - 1];
      SpacedBound(front, gap);
      assert times[|times| - 1] > front[|front| - 1] + gap;
    }
  }

  /** While nobody touches its lease, a message is delivered at most T / D + 1 times in an interval of
    length T, where D is the ack deadline of its subscription. */
  lemma {:induction false} DeliveriesAreBounded(st: State, ops: seq<Op>, s: string, a: string)
    requires WellFormed(st) && Waiting(st, s, a) && NoLeaseChange(ops, s, a)
    ensures var times, d := DeliveryTimes(st, ops, s, a), st.subs[s].ackDeadlineSeconds * SECOND;
            d > 0 && (times != [] ==> |times| <= (times[|times| - 1] - times[0]) / d + 1)
  {
    hide WellFormed, NoLeaseChange, DeliveryTimes, Spaced;
    var times, seconds := DeliveryTimes(st, ops, s, a), st.subs[s].ackDeadlineSeconds;
    DeliveriesSpacedFrom(st, ops, s, a);
    if times != [] {
      SpacedBound(times, seconds * SECOND);
      QuotientBound(|times| - 1, seconds * SECOND, times[|times| - 1] - times[0]);
    }
  }

  lemma QuotientBound(n: nat, d: int, t: int)
    requires d > 0 && n * d <= t
    ensures n <= t / d
  {
    var q := t / d;
    assert t == q * d + t % d;
    if q < n { MulMonotone(q + 1, n, d); }
  }

  lemma MulMonotone(a: int, b: int, d: int)
    requires a <= b && d >= 0
    ensures a * d <= b * d
  {}

  lemma {:induction false} DeliveriesSpacedFrom(st: State, ops: seq<Op>, s: string, a: string)
    requires WellFormed(st) && Waiting(st, s, a) && NoLeaseChange(ops, s, a)
    ensures st.subs[s].ackDeadlineSeconds > 0
    ensures Spaced(DeliveryTimes(st, ops, s, a), st.subs[s].ackDeadlineSeconds * SECOND)
    decreases ops
  {
    if ops != [] {
      var next, seconds := Exec(st, ops[0]), st.subs[s].ackDeadlineSeconds;
      assert !ChangesLease(ops[0], s, a);
      assert forall i :: 0 <= i < |ops| - 1 ==> ops[1..][i] == ops[i + 1];
      assert IssuedBy(s, a, st.counter) by { assert QueueOk(s, st.queues[s], st.counter); }
      ExecOk(st, ops[0]);
      if Delivers(st, ops[0], s, a) {
        DeliveryTakesLease(st, ops[0], s, a);
        DeliveryKeepsDeadline(st, ops[0], s, a);
        LeasedDeliveriesSpaced(next, ops[1..], s, a, TimeOf(ops[0]) + seconds * SECOND, seconds);
      } else {
        OthersKeepLease(st, ops[0], s, a);
        if Waiting(next, s, a) {
          DeliveriesSpacedFrom(next, ops[1..], s, a);
        } else {
          LeasedDeliveriesSpaced(next, ops[1..], s, a, 0, seconds);
        }
      }
    }
  }
}
