/** The order in which a pull hands out messages: that of their IDs as strings, and when it is the order of
  publication. */
module PubSubOrder {
  import opened Text
  import opened PubSubState

  /** The numbers of the available messages. */
  ghost predicate Awaits(st: State, sub: string, now: int, n: nat)
    requires sub in st.queues
  {
    Decimal(n) in AvailableIDs(st.queues[sub], now)
  }

  /** As strings, the IDs of messages `m` and `n` are in the order of the numbers: `m`, scaled to the length
    of `n`, does not exceed `n`. */
  predicate KeepsOrder(m: nat, n: nat)
    requires m < n
  {
    LongerDecimal(m, n);
    m * Pow10(|Decimal(n)| - |Decimal(m)|) <= n
  }

  ghost predicate Numbered(ids: seq<string>) {
    forall i, j, m: nat, n: nat :: 0 <= i < j < |ids| && ids[i] == Decimal(m) && ids[j] == Decimal(n) ==> m < n
  }

  /** The pull of `max` messages takes them in the order of publication, and leaves none that was published
    earlier than one that it takes. */
  ghost predicate FirstOut(st: State, sub: string, max: int, now: int)
    requires sub in st.queues
  {
    var ids := PulledIDs(st, sub, max, now);
    && Numbered(ids)
    && (forall m: nat, n: nat :: Decimal(m) in ids && Awaits(st, sub, now, n) && Decimal(n) !in ids ==> m < n)
  }

  ghost predicate IsNumeral(id: string) {
    exists n: nat :: id == Decimal(n)
  }

  lemma {:induction false} AvailableAreNumbered(st: State, sub: string, now: int)
    requires WellFormed(st) && sub in st.queues
    ensures forall id :: id in AvailableIDs(st.queues[sub], now) ==> IsNumeral(id)
  {
    hide IsNumeral, Available;
    forall a | a in st.queues[sub] ensures IsNumeral(st.queues[sub][a].id) {
      NumberOf(st, sub, a);
    }
  }

  lemma {:induction false} NumberOf(st: State, sub: string, a: string)
    requires WellFormed(st) && sub in st.queues && a in st.queues[sub]
    ensures IsNumeral(st.queues[sub][a].id)
  {
    hide Decimal;
    var id := st.queues[sub][a].id;
    assert QueueOk(sub, st.queues[sub], st.counter);
    var n: nat :| 1 <= n <= st.counter && a == NthAckID(sub, n);
    assert a[|sub + ":"|..] == id && NthAckID(sub, n)[|sub + ":"|..] == Decimal(n);
  }

  lemma {:induction false} PairInOrder(m: nat, n: nat)
    requires m != n
    ensures m < n ==> (Compare(Decimal(m), Decimal(n)) < 0 <==> KeepsOrder(m, n))
    ensures m > n ==> (Compare(Decimal(m), Decimal(n)) > 0 <==> KeepsOrder(n, m))
  {
    if m < n { DecimalsInOrder(m, n); } else { DecimalsInOrder(n, m); }
    CompareAntisymmetric(Decimal(m), Decimal(n));
    if Decimal(m) == Decimal(n) { DecimalInjective(m, n); }
  }

  /** Messages are numbered as they are published, and come out in that order, whatever the number asked
    for, exactly when every two that are available keep it. */
  lemma {:induction false} FirstInFirstOutExactly(st: State, sub: string, now: int)
    requires WellFormed(st) && sub in st.queues
    ensures forall id :: id in AvailableIDs(st.queues[sub], now) ==> IsNumeral(id)
    ensures (forall max: int :: FirstOut(st, sub, max, now)) <==>
            (forall m: nat, n: nat :: m < n && Awaits(st, sub, now, m) && Awaits(st, sub, now, n) ==> KeepsOrder(m, n))
  {
    hide WellFormed, FirstOut, Awaits, KeepsOrder, Compare, Decimal, AvailableIDs, IsNumeral;
    AvailableAreNumbered(st, sub, now);
    if forall max: int :: FirstOut(st, sub, max, now) {
      forall m: nat, n: nat | m < n && Awaits(st, sub, now, m) && Awaits(st, sub, now, n) ensures KeepsOrder(m, n) {
        AllInOrder(st, sub, now, m, n);
      }
    }
    if forall m: nat, n: nat :: m < n && Awaits(st, sub, now, m) && Awaits(st, sub, now, n) ==> KeepsOrder(m, n) {
      forall max: int ensures FirstOut(st, sub, max, now) {
        FirstOutWhenKept(st, sub, max, now);
      }
    }
  }

  /** A pull of everything shows the order of every two. */
  lemma {:induction false} AllInOrder(st: State, sub: string, now: int, m: nat, n: nat)
    requires sub in st.queues && m < n && Awaits(st, sub, now, m) && Awaits(st, sub, now, n)
    requires FirstOut(st, sub, |AvailableIDs(st.queues[sub], now)|, now)
    ensures KeepsOrder(m, n)
  {
    hide Compare, Decimal, AvailableIDs, KeepsOrder, IsAscending, Numbered;
    var all := Candidates(st.queues[sub], now);
    assert PulledIDs(st, sub, |all|, now) == all;
    NumberedInOrder(all, m, n);
    PairInOrder(m, n);
  }

  lemma {:induction false} NumberedInOrder(ids: seq<string>, m: nat, n: nat)
    requires Numbered(ids) && IsAscending(ids) && Decimal(m) in ids && Decimal(n) in ids && m < n
    ensures Compare(Decimal(m), Decimal(n)) < 0
  {
    hide Compare, Decimal;
    var i :| 0 <= i < |ids| && ids[i] == Decimal(m);
    var j :| 0 <= j < |ids| && ids[j] == Decimal(n);
    if i == j { DecimalInjective(m, n); }
  }

  lemma {:induction false} FirstOutWhenKept(st: State, sub: string, max: int, now: int)
    requires sub in st.queues
    requires forall m: nat, n: nat :: m < n && Awaits(st, sub, now, m) && Awaits(st, sub, now, n) ==> KeepsOrder(m, n)
    ensures FirstOut(st, sub, max, now)
  {
    hide Compare, Decimal, AvailableIDs, KeepsOrder, PulledIDs, IsAscending;
    var ids := PulledIDs(st, sub, max, now);
    forall i, j, m: nat, n: nat | 0 <= i < j < |ids| && ids[i] == Decimal(m) && ids[j] == Decimal(n) ensures m < n {
      AscendingAt(ids, i, j);
      PullTakesTheFirst(st, sub, max, now, Decimal(m), Decimal(n));
      PullTakesTheFirst(st, sub, max, now, Decimal(n), Decimal(m));
      BeforeMeansEarlier(st, sub, now, m, n);
    }
    forall m: nat, n: nat | Decimal(m) in ids && Awaits(st, sub, now, n) && Decimal(n) !in ids ensures m < n {
      PullTakesTheFirst(st, sub, max, now, Decimal(m), Decimal(n));
      BeforeMeansEarlier(st, sub, now, m, n);
    }
  }

  lemma AscendingAt(ids: seq<string>, i: nat, j: nat)
    requires i < j < |ids|
    ensures IsAscending(ids) ==> Compare(ids[i], ids[j]) < 0
  {}

  lemma {:induction false} BeforeMeansEarlier(st: State, sub: string, now: int, m: nat, n: nat)
    requires sub in st.queues && Awaits(st, sub, now, m) && Awaits(st, sub, now, n)
    requires Compare(Decimal(m), Decimal(n)) < 0
    requires forall i: nat, j: nat :: i < j && Awaits(st, sub, now, i) && Awaits(st, sub, now, j) ==> KeepsOrder(i, j)
    ensures m < n
  {
    hide Compare, Decimal, KeepsOrder, Awaits;
    CompareAntisymmetric(Decimal(m), Decimal(m));
    if m != n { PairInOrder(m, n); }
  }

  // ---------- the tenth message ----------

  const SUB: string := "s"

  /** A subscription to which `n` messages have been published. */
  ghost function Sent(p: Payload, n: nat): State {
    if n == 0 then
      var created := Exec(Empty, OpCreateTopic("t", map[]));
      Exec(created, OpCreateSubscription(Subscription(SUB, "t", 10, "", "", 0)))
    else Exec(Sent(p, n - 1), OpPublish("t", [p], 0))
  }

  /** Messages `first` to `last` wait undelivered. */
  ghost predicate Holds(st: State, first: nat, last: nat) {
    && SUB in st.subs && SUB in st.queues
    && (forall a :: a in st.queues[SUB] <==> exists n: nat :: first <= n <= last && a == NthAckID(SUB, n))
    && (forall n: nat :: first <= n <= last ==> st.queues[SUB][NthAckID(SUB, n)].id == Decimal(n))
    && (forall a :: a in st.queues[SUB] ==> !st.queues[SUB][a].delivered)
  }

  lemma {:induction false} AllSent(p: Payload, n: nat)
    ensures var st := Sent(p, n);
            WellFormed(st) && "t" in st.topics && Recipients(st, "t") == {SUB} && st.counter == n && Holds(st, 1, n)
  {
    hide WellFormed, AckID, Decimal, Holds, NthAckID;
    if n == 0 {
      ExecOk(Empty, OpCreateTopic("t", map[]));
      ExecOk(Exec(Empty, OpCreateTopic("t", map[])), OpCreateSubscription(Subscription(SUB, "t", 10, "", "", 0)));
      NoneSent(p);
    } else {
      AllSent(p, n - 1);
      ExecOk(Sent(p, n - 1), OpPublish("t", [p], 0));
      OneMore(Sent(p, n - 1), p);
    }
  }

  lemma {:induction false} NoneSent(p: Payload)
    ensures var st := Sent(p, 0);
            "t" in st.topics && Recipients(st, "t") == {SUB} && st.counter == 0 && Holds(st, 1, 0)
  {}

  lemma {:induction false} OneMore(st: State, p: Payload)
    requires "t" in st.topics && Recipients(st, "t") == {SUB} && Holds(st, 1, st.counter)
    ensures var next := Exec(st, OpPublish("t", [p], 0));
            && "t" in next.topics && Recipients(next, "t") == {SUB} && next.counter == st.counter + 1
            && Holds(next, 1, st.counter + 1)
  {
    hide AckID, Decimal;
    var n := st.counter + 1;
    var next := PublishOne(st, "t", p, 0);
    assert Exec(st, OpPublish("t", [p], 0)) == next by {
      assert PublishAll(next, "t", [p][1..], 0) == next;
    }
    NthAckIDInjective(SUB);
    assert next.queues[SUB] == st.queues[SUB][NthAckID(SUB, n) := Fresh(SUB, Decimal(n), p, 0)];
  }

  function FirstEight(): seq<string> {
    seq(8, i requires 0 <= i < 8 => NthAckID(SUB, i + 1))
  }

  ghost function EightAcknowledged(p: Payload): State {
    Exec(Sent(p, 10), OpAcknowledge(SUB, FirstEight()))
  }

  /** Once the first eight of ten messages are acknowledged, a pull of one takes the tenth, and the ninth
    stays behind. */
  lemma {:induction false} TheTenthComesFirst(p: Payload, now: int)
    ensures var st := EightAcknowledged(p);
            && WellFormed(st) && SUB in st.queues
            && Awaits(st, SUB, now, 9) && Awaits(st, SUB, now, 10)
            && PulledIDs(st, SUB, 1, now) == [Decimal(10)] && !FirstOut(st, SUB, 1, now)
  {
    hide WellFormed, Sent, AckID, Decimal, Compare, Holds, Exec, FirstEight, AvailableIDs;
    var st := EightAcknowledged(p);
    AllSent(p, 10);
    ExecOk(Sent(p, 10), OpAcknowledge(SUB, FirstEight()));
    LastTwo(Sent(p, 10));
    TwoAwait(st, now);
    NineAndTen();
    AscendingUnique([Decimal(10), Decimal(9)], Candidates(st.queues[SUB], now));
  }

  lemma {:induction false} LastTwo(st: State)
    requires Holds(st, 1, 10)
    ensures Holds(Exec(st, OpAcknowledge(SUB, FirstEight())), 9, 10)
  {
    hide NthAckID;
    var acked := FirstEight();
    NthAckIDInjective(SUB);
    forall n: nat | 1 <= n <= 10 ensures NthAckID(SUB, n) in acked <==> n <= 8 {
      if n <= 8 { assert acked[n - 1] == NthAckID(SUB, n); }
    }
  }

  lemma {:induction false} TwoAwait(st: State, now: int)
    requires Holds(st, 9, 10)
    ensures SUB in st.queues && AvailableIDs(st.queues[SUB], now) == {Decimal(9), Decimal(10)}
  {
    hide NthAckID, Decimal;
    var q := st.queues[SUB];
    assert NthAckID(SUB, 9) in q && NthAckID(SUB, 10) in q;
    forall a | a in q ensures q[a].id in {Decimal(9), Decimal(10)} {
      var n: nat :| 9 <= n <= 10 && a == NthAckID(SUB, n);
    }
  }

  lemma NineAndTen()
    ensures Decimal(9) != Decimal(10) && Compare(Decimal(10), Decimal(9)) < 0
  {
    assert Decimal(1) == "1" && Decimal(10) == Decimal(1) + "0";
  }
}
