/** Live listening over runs: mutations, listeners that come and go, and consumers that take events from
  their channels. */
module FirestoreLive {
  import opened Wrappers
  import opened FirestoreEvents
  import opened FirestoreValues
  import opened FirestoreFeed
  import opened FirestoreWatch

  datatype Act =
    | Mutate(m: Mutation)
    | Take(id: int)
    | Join(id: int, target: Target)
    | Quit(id: int)

  /** The feed, and those who watch it. */
  datatype Live = Live(feed: Feed, watching: Watching<Document>)

  const Begin: Live := Live(Start(map[]), Watching([], map[], map[]))

  /** What an act means for the watchers: a mutation that takes effect happens, others do not. */
  function StepsOf(f: Feed, a: Act): seq<WatchStep<Document>> {
    match a
    case Mutate(m) =>
      var after := Apply(f, m).history;
      if |after| <= |f.history| then [] else [Happens(after[|f.history|])]
    case Take(id) => [Takes(id)]
    case Join(id, target) => [Registers(id, target)]
    case Quit(id) => [Leaves(id)]
  }

  function Perform(s: Live, a: Act): Live {
    Live(if a.Mutate? then Apply(s.feed, a.m) else s.feed, WatchRun(s.watching, StepsOf(s.feed, a)))
  }

  function PerformAll(s: Live, acts: seq<Act>): Live
    decreases acts
  {
    if acts == [] then s else PerformAll(Perform(s, acts[0]), acts[1..])
  }

  ghost predicate LiveOk(s: Live) {
    Consistent(s.feed) && KeyedByName(s.feed.docs) && s.watching.history == s.feed.history && WatchersOk(s.watching)
  }

  lemma OneStep<D>(s: Watching<D>, step: WatchStep<D>)
    ensures WatchRun(s, [step]) == WatchExec(s, step)
  {
    assert WatchRun(WatchExec(s, step), [step][1..]) == WatchExec(s, step);
  }

  /** A mutation adds no event or one. */
  lemma {:induction false} AddsAtMostOne(f: Feed, m: Mutation)
    ensures Apply(f, m) == f || (exists e :: Apply(f, m).history == f.history + [e])
  {}

  lemma {:induction false} PerformOk(s: Live, a: Act)
    requires LiveOk(s)
    ensures LiveOk(Perform(s, a))
  {
    hide WatchersOk, Consistent, Apply, WatchExec, KeyedByName;
    if a.Mutate? {
      ApplyKeepsConsistent(s.feed, a.m);
      AddsAtMostOne(s.feed, a.m);
    }
    if StepsOf(s.feed, a) != [] {
      var step := StepsOf(s.feed, a)[0];
      OneStep(s.watching, step);
      WatchExecOk(s.watching, step);
      HistoryAfter(s.watching, step);
    }
  }

  lemma HistoryAfter<D>(s: Watching<D>, step: WatchStep<D>)
    ensures WatchExec(s, step).history == if step.Happens? then s.history + [step.e] else s.history
  {}

  predicate StaysOn(a: Act, id: int) {
    !(a.Join? && a.id == id) && !(a.Quit? && a.id == id)
  }

  /** Whenever a mutation concerns the listener, its channel has room for the event. */
  predicate KeepsUp(s: Live, acts: seq<Act>, id: int)
    decreases acts
  {
    acts != [] ==> Roomy(s.watching, StepsOf(s.feed, acts[0]), id) && KeepsUp(Perform(s, acts[0]), acts[1..], id)
  }

  lemma {:induction false} LosslessActs(s: Live, acts: seq<Act>, id: int)
    requires LiveOk(s) && id in s.watching.watchers && id in s.watching.logs
    requires forall a :: a in acts ==> StaysOn(a, id)
    ensures var end := PerformAll(s, acts);
            && LiveOk(end) && id in end.watching.watchers && id in end.watching.logs
            && end.watching.watchers[id].target == s.watching.watchers[id].target
            && end.watching.logs[id].since == s.watching.logs[id].since
            && (Lossless(end.watching.logs[id]) <==> Lossless(s.watching.logs[id]) && KeepsUp(s, acts, id))
    decreases acts
  {
    hide Consistent, KeyedByName, WatchersOk, Apply, WatchRun, Lossless, Roomy, Stays;
    if acts != [] {
      assert acts[0] in acts;
      PerformOk(s, acts[0]);
      StepsStay(s.feed, acts[0], id);
      LosslessRun(s.watching, StepsOf(s.feed, acts[0]), id);
      LosslessActs(Perform(s, acts[0]), acts[1..], id);
    }
  }

  lemma StepsStay(f: Feed, a: Act, id: int)
    requires StaysOn(a, id)
    ensures forall step :: step in StepsOf(f, a) ==> Stays(step, id)
  {}

  /** In any run of mutations, of listeners that come and go and of consumers that take events, a listener
    receives every event that concerns it exactly when its channel has room at each of them. And then, on
    top of a snapshot of any moment since it joined, what it received is the present view. */
  lemma {:induction false} LiveClientExact(s: Live, acts: seq<Act>, id: int, moment: nat)
    requires LiveOk(s) && id in s.watching.watchers && Lossless(s.watching.logs[id])
    requires forall a :: a in acts ==> StaysOn(a, id)
    ensures var end := PerformAll(s, acts);
            && LiveOk(end) && id in end.watching.watchers && end.watching.logs[id].since <= |end.feed.history|
            && (Received(end.watching, id) == Owed(end.watching, id) <==> KeepsUp(s, acts, id))
    ensures var end := PerformAll(s, acts);
            var t := end.watching.watchers[id].target;
            KeepsUp(s, acts, id) && end.watching.logs[id].since <= moment <= |end.feed.history| ==>
              Replay(View(t, DocsAt(end.feed, moment)), Received(end.watching, id)) == View(t, end.feed.docs)
  {
    hide Consistent, KeyedByName, WatchersOk, Lossless, Received, Owed, KeepsUp, PerformAll, View, Replay;
    KeysAgree(s.watching);
    LosslessActs(s, acts, id);
    var end := PerformAll(s, acts);
    AllSentExactly(end.watching, id);
    if KeepsUp(s, acts, id) && end.watching.logs[id].since <= moment <= |end.feed.history| {
      OwedConverges(end, id, moment);
    }
  }

  lemma {:induction false} OwedConverges(s: Live, id: int, moment: nat)
    requires LiveOk(s) && id in s.watching.watchers && id in s.watching.logs
    requires s.watching.logs[id].since <= moment <= |s.feed.history|
    ensures var t := s.watching.watchers[id].target;
            Replay(View(t, DocsAt(s.feed, moment)), Owed(s.watching, id)) == View(t, s.feed.docs)
  {
    hide WatchersOk, View, KeyedByName;
    var n, r := |s.feed.history|, s.watching.logs[id].since;
    assert s.feed.history[..n] == s.feed.history && s.feed.history[r..n] == s.feed.history[r..];
    WatchBeforeSnapshot(s.feed, r, moment, n, s.watching.watchers[id].target);
  }

  // ---------- the sixty-fifth event ----------

  function Mutations(ms: seq<Mutation>): seq<Act> {
    seq(|ms|, i requires 0 <= i < |ms| => Mutate(ms[i]))
  }

  /** Mutations alone reach the watchers as the events they add. */
  lemma {:induction false} MutationsAnnounce(s: Live, ms: seq<Mutation>)
    requires LiveOk(s)
    ensures var end := PerformAll(s, Mutations(ms));
            LiveOk(end) && end.feed == Run(s.feed, ms) && Announced(s.watching, end.watching)
    decreases ms
  {
    hide WatchersOk, Consistent, KeyedByName, Apply, Announced;
    if ms == [] {
      AnnouncedNothing(s.watching);
    } else {
      var next := Perform(s, Mutate(ms[0]));
      assert Mutations(ms)[0] == Mutate(ms[0]) && Mutations(ms)[1..] == Mutations(ms[1..]);
      PerformOk(s, Mutate(ms[0]));
      MutationAnnounces(s, ms[0]);
      MutationsAnnounce(next, ms[1..]);
      AnnouncedThen(s.watching, next.watching, PerformAll(next, Mutations(ms[1..])).watching);
    }
  }

  lemma {:induction false} MutationAnnounces(s: Live, m: Mutation)
    requires LiveOk(s)
    ensures Announced(s.watching, Perform(s, Mutate(m)).watching)
  {
    hide WatchersOk, Consistent, KeyedByName, Apply, Announced, WatchExec;
    AddsAtMostOne(s.feed, m);
    AnnouncedNothing(s.watching);
    if StepsOf(s.feed, Mutate(m)) != [] {
      var step := StepsOf(s.feed, Mutate(m))[0];
      OneStep(s.watching, step);
      AnnouncedOne(s.watching, step.e);
      HappensNotifies(s.watching, step.e);
    }
  }

  lemma HappensNotifies<D>(s: Watching<D>, e: Event<D>)
    ensures WatchExec(s, Happens(e)) == Notified(s, e)
  {}

  /** All events are about `name`, and write it. */
  predicate AllWrite(events: seq<DocEvent>, name: string) {
    forall i :: 0 <= i < |events| ==> events[i].name == name && events[i].doc.Some?
  }

  function Rewrites(name: string, n: nat): seq<Mutation> {
    seq(n, _ => Update(name, map[], [], 0))
  }

  lemma {:induction false} RewritesWrite(f: Feed, name: string, n: nat)
    ensures var g := Run(f, Rewrites(name, n));
            && |g.history| == |f.history| + n && f.history <= g.history
            && AllWrite(g.history[|f.history|..], name)
            && (n > 0 ==> name in g.docs) && (forall other :: other != name ==> (other in g.docs <==> other in f.docs))
    decreases n
  {
    if n > 0 {
      var next := Apply(f, Update(name, map[], [], 0));
      assert Rewrites(name, n)[1..] == Rewrites(name, n - 1);
      RewritesWrite(next, name, n - 1);
      var g := Run(next, Rewrites(name, n - 1));
      assert g.history[|f.history|..] == [next.history[|f.history|]] + g.history[|next.history|..];
    }
  }

  /** The documents of a collection `c/`: one is written 64 times and then deleted, while its listener, who
    joined first, takes nothing. */
  function Flood(): Live {
    PerformAll(Perform(Begin, Join(1, Target("c/", ""))), Mutations(Rewrites("c/a", CHANNEL_CAPACITY) + [Delete("c/a")]))
  }

  /** The listener's channel then holds the 64 writes, the delete is lost, and the listener keeps a document
    that is gone. */
  lemma {:induction false} TheSixtyFifthIsLost()
    ensures var s := Flood();
            && LiveOk(s) && |s.feed.history| == CHANNEL_CAPACITY + 1
            && 1 in s.watching.watchers && 1 in s.watching.logs
            && Received(s.watching, 1) == s.feed.history[..CHANNEL_CAPACITY]
            && Replay(View(Target("c/", ""), map[]), Received(s.watching, 1)) != View(Target("c/", ""), s.feed.docs)
  {
    hide LiveOk, Run, Apply, View, Replay, PerformAll, Perform;
    var t := Target("c/", "");
    FloodHistory(t);
    FloodChannel(t);
    var s := Flood();
    WritesLeave(View(t, map[]), s.feed.history[..CHANNEL_CAPACITY], "c/a");
    DeletedIsNotInView(t, s.feed);
  }

  lemma {:induction false} Joined(t: Target)
    ensures var s := Perform(Begin, Join(1, t));
            && LiveOk(s) && s.feed == Start(map[])
            && s.watching == Watching([], map[1 := Watcher(t, [])], map[1 := WatchLog(0, [], [])])
  {
    PerformOk(Begin, Join(1, t));
    var step: WatchStep<Document> := Registers(1, t);
    OneStep(Begin.watching, step);
  }

  lemma {:induction false} FloodHistory(t: Target)
    requires t == Target("c/", "")
    ensures var f := Flood().feed;
            && |f.history| == CHANNEL_CAPACITY + 1 && "c/a" !in f.docs
            && AllWrite(f.history[..CHANNEL_CAPACITY], "c/a") && f.history[CHANNEL_CAPACITY].name == "c/a"
    ensures LiveOk(Flood()) && Announced(Perform(Begin, Join(1, t)).watching, Flood().watching)
  {
    hide LiveOk, Announced, PerformAll, Perform, AllWrite;
    var s := Perform(Begin, Join(1, t));
    var ms := Rewrites("c/a", CHANNEL_CAPACITY);
    Joined(t);
    MutationsAnnounce(s, ms + [Delete("c/a")]);
    RewritesWrite(s.feed, "c/a", CHANNEL_CAPACITY);
    RunConcat(s.feed, ms, [Delete("c/a")]);
    var g := Run(s.feed, ms);
    assert Run(g, [Delete("c/a")]) == Run(Apply(g, Delete("c/a")), [Delete("c/a")][1..]);
    assert g.history[0..] == g.history;
    assert (g.history + [Apply(g, Delete("c/a")).history[CHANNEL_CAPACITY]])[..CHANNEL_CAPACITY] == g.history;
  }

  lemma {:induction false} FloodChannel(t: Target)
    requires t == Target("c/", "") && |Flood().feed.history| == CHANNEL_CAPACITY + 1
    requires AllWrite(Flood().feed.history[..CHANNEL_CAPACITY], "c/a")
    requires Flood().feed.history[CHANNEL_CAPACITY].name == "c/a"
    requires LiveOk(Flood()) && Announced(Perform(Begin, Join(1, t)).watching, Flood().watching)
    ensures var s := Flood();
            && 1 in s.watching.watchers && 1 in s.watching.logs
            && Received(s.watching, 1) == s.feed.history[..CHANNEL_CAPACITY]
  {
    hide Flood, Perform, WatchersOk, Consistent, KeyedByName, Announced, Received;
    var es := Flood().feed.history;
    Joined(t);
    forall i | 0 <= i < |es| ensures es[i].name == "c/a" {
      if i < CHANNEL_CAPACITY { assert es[i] == es[..CHANNEL_CAPACITY][i]; }
    }
    UnreadFromTheStart(t, "c/a", Perform(Begin, Join(1, t)).watching, Flood().watching);
  }

  lemma {:induction false} UnreadFromTheStart(t: Target, name: string, start: Watching<Document>, end: Watching<Document>)
    requires start == Watching([], map[1 := Watcher(t, [])], map[1 := WatchLog(0, [], [])])
    requires Announced(start, end) && Matches(t, name)
    requires forall i :: 0 <= i < |end.history| ==> end.history[i].name == name
    ensures 1 in end.watchers && 1 in end.logs && Received(end, 1) == Earliest(end.history, CHANNEL_CAPACITY)
  {
    hide NotifiedAll, Matches;
    var es := end.history[0..];
    assert es == end.history;
    UnreadChannel(start, es, 1);
    AllMatch(t, es, name);
    assert [] + Matching(t, es) == es;
  }

  lemma {:induction false} AllMatch(t: Target, es: seq<DocEvent>, name: string)
    requires Matches(t, name) && forall i :: 0 <= i < |es| ==> es[i].name == name
    ensures Matching(t, es) == es
    decreases es
  {
    if es != [] { AllMatch(t, es[1..], name); }
  }

  /** After events that write a document, and at least one, it is there. */
  lemma {:induction false} WritesLeave(v: Docs, es: seq<DocEvent>, name: string)
    requires AllWrite(es, name)
    ensures es != [] ==> name in Replay(v, es)
    ensures name in v ==> name in Replay(v, es)
    decreases es
  {
    if es != [] {
      assert AllWrite(es[1..], name);
      WritesLeave(Receive(v, es[0]), es[1..], name);
    }
  }

  lemma {:induction false} DeletedIsNotInView(t: Target, f: Feed)
    requires "c/a" !in f.docs
    ensures "c/a" !in View(t, f.docs)
  {}
}
