/** Watchers: what reaches a consumer through a bounded channel that drops what it has no room for. */
module FirestoreWatch {
  import opened FirestoreEvents

  const CHANNEL_CAPACITY: nat := 64

  datatype Watcher<+D> = Watcher(target: Target, ch: seq<Event<D>>)

  /** What became of a watcher's events: `since` events preceded its registration, its consumer has `taken`
    some from the channel, and `kept` says of each matching event since whether there was room for it. */
  datatype WatchLog<+D> = WatchLog(since: nat, taken: seq<Event<D>>, kept: seq<bool>)

  predicate Lossless<D>(log: WatchLog<D>) {
    forall i :: 0 <= i < |log.kept| ==> log.kept[i]
  }

  function Chosen<T>(s: seq<T>, kept: seq<bool>): (r: seq<T>)
    requires |kept| == |s|
    ensures |r| <= |s|
    ensures |r| == |s| <==> forall i :: 0 <= i < |kept| ==> kept[i]
    ensures |r| == |s| ==> r == s
    decreases s
  {
    if s == [] then []
    else
      var n := |s| - 1;
      assert forall i :: 0 <= i < n ==> kept[..n][i] == kept[i];
      Chosen(s[..n], kept[..n]) + if kept[n] then [s[n]] else []
  }

  lemma ChosenAppend<T>(s: seq<T>, kept: seq<bool>, x: T, keep: bool)
    requires |kept| == |s|
    ensures Chosen(s + [x], kept + [keep]) == Chosen(s, kept) + if keep then [x] else []
  {
    assert (s + [x])[..|s|] == s && (kept + [keep])[..|s|] == kept;
  }

  // ---------- one watcher ----------

  /** The consumer has taken or will find in the channel, in order, exactly the matching events that there
    was room for. */
  ghost predicate WatcherOk<D>(w: Watcher<D>, log: WatchLog<D>, history: seq<Event<D>>) {
    && |w.ch| <= CHANNEL_CAPACITY
    && log.since <= |history|
    && |log.kept| == |Matching(w.target, history[log.since..])|
    && log.taken + w.ch == Chosen(Matching(w.target, history[log.since..]), log.kept)
  }

  predicate HasRoom<D>(w: Watcher<D>) {
    |w.ch| < CHANNEL_CAPACITY
  }

  /** A non-blocking send: dropped when the channel is full. */
  function Offer<D>(w: Watcher<D>, e: Event<D>): Watcher<D> {
    if Matches(w.target, e.name) && HasRoom(w) then w.(ch := w.ch + [e]) else w
  }

  function OfferLog<D>(w: Watcher<D>, log: WatchLog<D>, e: Event<D>): WatchLog<D> {
    if Matches(w.target, e.name) then log.(kept := log.kept + [HasRoom(w)]) else log
  }

  lemma {:induction false} MatchingAppend<D>(t: Target, es: seq<Event<D>>, e: Event<D>)
    ensures Matching(t, es + [e]) == if Matches(t, e.name) then Matching(t, es) + [e] else Matching(t, es)
  {
    if es == [] {
      assert es + [e] == [e];
    } else {
      MatchingAppend(t, es[1..], e);
      assert (es + [e])[1..] == es[1..] + [e];
    }
  }

  lemma {:induction false} OfferOk<D>(w: Watcher<D>, log: WatchLog<D>, history: seq<Event<D>>, e: Event<D>)
    requires WatcherOk(w, log, history)
    ensures WatcherOk(Offer(w, e), OfferLog(w, log, e), history + [e])
  {
    hide Chosen, Matching, Matches;
    var matching := Matching(w.target, history[log.since..]);
    MatchingAppend(w.target, history[log.since..], e);
    ChosenAppend(matching, log.kept, e, HasRoom(w));
    assert (history + [e])[log.since..] == history[log.since..] + [e];
    assert log.taken + (w.ch + [e]) == log.taken + w.ch + [e];
    assert log.taken + w.ch + [] == log.taken + w.ch;
  }

  /** The consumer takes the oldest event from the channel, if there is one. */
  function Took<D>(w: Watcher<D>): Watcher<D> {
    if w.ch == [] then w else w.(ch := w.ch[1..])
  }

  function TookLog<D>(w: Watcher<D>, log: WatchLog<D>): WatchLog<D> {
    if w.ch == [] then log else log.(taken := log.taken + [w.ch[0]])
  }

  lemma {:induction false} TookOk<D>(w: Watcher<D>, log: WatchLog<D>, history: seq<Event<D>>)
    requires WatcherOk(w, log, history)
    ensures WatcherOk(Took(w), TookLog(w, log), history)
  {
    if w.ch != [] { assert log.taken + [w.ch[0]] + w.ch[1..] == log.taken + w.ch; }
  }

  lemma {:induction false} RegisteredOk<D>(t: Target, history: seq<Event<D>>)
    ensures WatcherOk(Watcher(t, []), WatchLog(|history|, [], []), history)
  {
    assert history[|history|..] == [];
  }

  // ---------- all watchers ----------

  function OfferAll<D>(ws: map<int, Watcher<D>>, e: Event<D>): map<int, Watcher<D>> {
    map id | id in ws :: Offer(ws[id], e)
  }

  function OfferAllLogs<D>(ws: map<int, Watcher<D>>, logs: map<int, WatchLog<D>>, e: Event<D>): map<int, WatchLog<D>> {
    map id | id in ws && id in logs :: OfferLog(ws[id], logs[id], e)
  }

  /** The events so far, the registered watchers and what became of their events. */
  datatype Watching<+D> = Watching(history: seq<Event<D>>, watchers: map<int, Watcher<D>>, logs: map<int, WatchLog<D>>)

  ghost predicate WatchersOk<D>(s: Watching<D>) {
    s.watchers.Keys == s.logs.Keys && forall id :: id in s.watchers ==> WatcherOk(s.watchers[id], s.logs[id], s.history)
  }

  function Notified<D>(s: Watching<D>, e: Event<D>): Watching<D> {
    Watching(s.history + [e], OfferAll(s.watchers, e), OfferAllLogs(s.watchers, s.logs, e))
  }

  function NotifiedAll<D>(s: Watching<D>, es: seq<Event<D>>): Watching<D>
    decreases es
  {
    if es == [] then s else NotifiedAll(Notified(s, es[0]), es[1..])
  }

  function Registered<D>(s: Watching<D>, id: int, t: Target): Watching<D> {
    Watching(s.history, s.watchers[id := Watcher(t, [])], s.logs[id := WatchLog(|s.history|, [], [])])
  }

  function Unregistered<D>(s: Watching<D>, id: int): Watching<D> {
    Watching(s.history, s.watchers - {id}, s.logs - {id})
  }

  function Consumed<D>(s: Watching<D>, id: int): Watching<D> {
    if id in s.watchers && id in s.logs then
      Watching(s.history, s.watchers[id := Took(s.watchers[id])], s.logs[id := TookLog(s.watchers[id], s.logs[id])])
    else s
  }

  /** `after` is what announcing the events that were added since makes of `before`. */
  ghost predicate Announced<D>(before: Watching<D>, after: Watching<D>) {
    before.history <= after.history && after == NotifiedAll(before, after.history[|before.history|..])
  }

  lemma {:induction false} NotifiedAllHistory<D>(s: Watching<D>, es: seq<Event<D>>)
    ensures NotifiedAll(s, es).history == s.history + es
    decreases es
  {
    if es != [] {
      NotifiedAllHistory(Notified(s, es[0]), es[1..]);
      assert s.history + [es[0]] + es[1..] == s.history + es;
    }
  }

  lemma {:induction false} NotifiedAllConcat<D>(s: Watching<D>, a: seq<Event<D>>, b: seq<Event<D>>)
    ensures NotifiedAll(s, a + b) == NotifiedAll(NotifiedAll(s, a), b)
    decreases a
  {
    if a == [] {
      assert a + b == b;
    } else {
      assert (a + b)[0] == a[0] && (a + b)[1..] == a[1..] + b;
      NotifiedAllConcat(Notified(s, a[0]), a[1..], b);
    }
  }

  lemma {:induction false} AnnouncedNothing<D>(s: Watching<D>)
    ensures Announced(s, s)
  {
    assert s.history[|s.history|..] == [];
  }

  lemma {:induction false} AnnouncedOne<D>(s: Watching<D>, e: Event<D>)
    ensures Announced(s, Notified(s, e))
  {
    assert (s.history + [e])[|s.history|..] == [e];
    assert [e][1..] == [];
    assert NotifiedAll(s, [e]) == NotifiedAll(Notified(s, e), []);
  }

  lemma {:induction false} AnnouncedThen<D>(a: Watching<D>, b: Watching<D>, c: Watching<D>)
    requires Announced(a, b) && Announced(b, c)
    ensures Announced(a, c)
  {
    var first, rest := b.history[|a.history|..], c.history[|b.history|..];
    assert c.history[|a.history|..] == first + rest;
    NotifiedAllConcat(a, first, rest);
  }

  lemma {:induction false} NotifiedOk<D>(s: Watching<D>, e: Event<D>)
    requires WatchersOk(s)
    ensures WatchersOk(Notified(s, e))
  {
    hide WatcherOk, Offer, OfferLog;
    forall id | id in s.watchers
      ensures WatcherOk(Notified(s, e).watchers[id], Notified(s, e).logs[id], s.history + [e])
    {
      OfferOk(s.watchers[id], s.logs[id], s.history, e);
    }
  }

  // ---------- runs ----------

  datatype WatchStep<+D> =
    | Happens(e: Event<D>)
    | Takes(id: int)
    | Registers(id: int, target: Target)
    | Leaves(id: int)

  function WatchExec<D>(s: Watching<D>, step: WatchStep<D>): Watching<D> {
    match step
    case Happens(e) => Notified(s, e)
    case Takes(id) => Consumed(s, id)
    case Registers(id, target) => Registered(s, id, target)
    case Leaves(id) => Unregistered(s, id)
  }

  function WatchRun<D>(s: Watching<D>, steps: seq<WatchStep<D>>): Watching<D>
    decreases steps
  {
    if steps == [] then s else WatchRun(WatchExec(s, steps[0]), steps[1..])
  }

  lemma {:induction false} WatchExecOk<D>(s: Watching<D>, step: WatchStep<D>)
    requires WatchersOk(s)
    ensures WatchersOk(WatchExec(s, step))
  {
    hide WatcherOk, Took, TookLog, Notified;
    match step {
      case Happens(e) => NotifiedOk(s, e);
      case Takes(id) => if id in s.watchers { TookOk(s.watchers[id], s.logs[id], s.history); }
      case Registers(id, target) => RegisteredOk(target, s.history);
      case Leaves(id) =>
    }
  }

  /** The watcher of `id` is neither replaced nor removed. */
  predicate Stays<D>(step: WatchStep<D>, id: int) {
    !(step.Registers? && step.id == id) && !(step.Leaves? && step.id == id)
  }

  /** Whenever an event concerns the watcher, its channel has room. */
  predicate Roomy<D>(s: Watching<D>, steps: seq<WatchStep<D>>, id: int)
    decreases steps
  {
    steps != [] ==>
      && (steps[0].Happens? && id in s.watchers && Matches(s.watchers[id].target, steps[0].e.name) ==> HasRoom(s.watchers[id]))
      && Roomy(WatchExec(s, steps[0]), steps[1..], id)
  }

  /** Everything the consumer was sent. */
  function Received<D>(s: Watching<D>, id: int): seq<Event<D>>
    requires id in s.watchers && id in s.logs
  {
    s.logs[id].taken + s.watchers[id].ch
  }

  /** Everything the consumer should have been sent. */
  function Owed<D>(s: Watching<D>, id: int): seq<Event<D>>
    requires id in s.watchers && id in s.logs && s.logs[id].since <= |s.history|
  {
    Matching(s.watchers[id].target, s.history[s.logs[id].since..])
  }

  /** What was sent is all that was owed exactly when nothing was dropped. */
  lemma {:induction false} AllSentExactly<D>(s: Watching<D>, id: int)
    requires WatchersOk(s) && id in s.watchers
    ensures s.logs[id].since <= |s.history|
    ensures Received(s, id) == Owed(s, id) <==> Lossless(s.logs[id])
  {
    assert WatcherOk(s.watchers[id], s.logs[id], s.history);
  }

  /** A step keeps the watcher, and keeps it lossless exactly when it has room for what concerns it. */
  lemma {:induction false} StepKeepsLossless<D>(s: Watching<D>, step: WatchStep<D>, id: int)
    requires s.watchers.Keys == s.logs.Keys && id in s.watchers && Stays(step, id)
    ensures var after := WatchExec(s, step);
            && id in after.watchers && id in after.logs
            && after.watchers[id].target == s.watchers[id].target && after.logs[id].since == s.logs[id].since
            && (Lossless(after.logs[id]) <==>
                  && Lossless(s.logs[id])
                  && (step.Happens? && Matches(s.watchers[id].target, step.e.name) ==> HasRoom(s.watchers[id])))
  {
    hide Matches;
    var w, log := s.watchers[id], s.logs[id];
    if step.Happens? && Matches(w.target, step.e.name) {
      var kept := log.kept + [HasRoom(w)];
      assert kept[|log.kept|] == HasRoom(w);
      assert forall i :: 0 <= i < |log.kept| ==> kept[i] == log.kept[i];
    }
  }

  /** In any run, a watcher that has missed nothing before has in the end received all the matching events
    since its registration, exactly when its channel had room at every one of them. */
  lemma {:induction false} ReceivesAllExactly<D>(s: Watching<D>, steps: seq<WatchStep<D>>, id: int)
    requires WatchersOk(s) && id in s.watchers && Lossless(s.logs[id])
    requires forall step :: step in steps ==> Stays(step, id)
    ensures var end := WatchRun(s, steps);
            && WatchersOk(end) && id in end.watchers && end.logs[id].since <= |end.history|
            && end.watchers[id].target == s.watchers[id].target && end.logs[id].since == s.logs[id].since
            && (Received(end, id) == Owed(end, id) <==> Roomy(s, steps, id))
  {
    hide WatchersOk, WatchExec, Stays, Lossless, Received, Owed;
    KeysAgree(s);
    LosslessRun(s, steps, id);
    AllSentExactly(WatchRun(s, steps), id);
  }

  lemma KeysAgree<D>(s: Watching<D>)
    requires WatchersOk(s)
    ensures s.watchers.Keys == s.logs.Keys
  {}

  lemma {:induction false} LosslessRun<D>(s: Watching<D>, steps: seq<WatchStep<D>>, id: int)
    requires WatchersOk(s) && id in s.watchers && id in s.logs
    requires forall step :: step in steps ==> Stays(step, id)
    ensures var end := WatchRun(s, steps);
            && WatchersOk(end) && id in end.watchers && id in end.logs
            && end.watchers[id].target == s.watchers[id].target && end.logs[id].since == s.logs[id].since
            && (Lossless(end.logs[id]) <==> Lossless(s.logs[id]) && Roomy(s, steps, id))
    decreases steps
  {
    hide WatchersOk, WatchExec, Stays, Lossless;
    if steps != [] {
      assert steps[0] in steps;
      KeysAgree(s);
      WatchExecOk(s, steps[0]);
      StepKeepsLossless(s, steps[0], id);
      LosslessRun(WatchExec(s, steps[0]), steps[1..], id);
    }
  }

  // ---------- a consumer that does not keep up ----------

  function Earliest<T>(s: seq<T>, n: nat): seq<T> {
    if |s| <= n then s else s[..n]
  }

  /** Without a consumer, the channel holds the first matching events that fit, and all later ones are
    lost. */
  lemma {:induction false} UnreadChannel<D>(s: Watching<D>, es: seq<Event<D>>, id: int)
    requires id in s.watchers && id in s.logs && |s.watchers[id].ch| <= CHANNEL_CAPACITY
    ensures var end := NotifiedAll(s, es);
            && id in end.watchers && id in end.logs && end.logs[id].taken == s.logs[id].taken
            && end.watchers[id].target == s.watchers[id].target
            && end.watchers[id].ch == Earliest(s.watchers[id].ch + Matching(s.watchers[id].target, es), CHANNEL_CAPACITY)
    decreases es
  {
    hide Matches;
    var w := s.watchers[id];
    if es == [] {
      assert w.ch + [] == w.ch;
    } else {
      UnreadChannel(Notified(s, es[0]), es[1..], id);
      var rest := Matching(w.target, es[1..]);
      assert w.ch + ([es[0]] + rest) == w.ch + [es[0]] + rest;
      EarliestOfFull(w.ch, [es[0]] + rest, rest);
    }
  }

  lemma EarliestOfFull<T>(ch: seq<T>, more: seq<T>, rest: seq<T>)
    requires |ch| <= CHANNEL_CAPACITY
    ensures |ch| == CHANNEL_CAPACITY ==>
              Earliest(ch + more, CHANNEL_CAPACITY) == ch == Earliest(ch + rest, CHANNEL_CAPACITY)
  {}
}
