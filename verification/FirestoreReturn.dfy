/** A client that returns: what it is sent for a token of the past, and when that brings it up to date. */
module FirestoreReturn {
  import opened Wrappers
  import opened FirestoreEvents
  import opened FirestoreValues
  import opened FirestoreFeed
  import opened FirestoreLive
  import opened FirestoreStore
  import opened FirestoreService

  /** What a client is sent that presents the token of a past moment: the changes since, or if the log no
    longer has them, or if the token is 0, a snapshot. */
  ghost function Answer(f: Feed, capacity: nat, moment: nat, t: Target, id: int): seq<Response<Document>>
    requires Consistent(f) && capacity > 0
  {
    var changes := ChangesSince(Retained(f.history, capacity), moment, t);
    var body :=
      if 0 < moment && changes.Some? then
        ChangesCarry(f, capacity, moment, t);
        CarriersSend(changes.value);
        SendAll(changes.value)
      else ChangeAll(Listing(View(t, f.docs)));
    Bracketed(id, body, EncodeResumeToken(|f.history|))
  }

  /** A client that holds what it was shown at the moment of its token, and returns, ends with the present
    view exactly when the log still has what it missed or none of the documents it holds has gone: no reset
    precedes the snapshot. */
  lemma {:induction false} ReturningClientExact(f: Feed, capacity: nat, t: Target, moment: nat, id: int)
    requires Consistent(f) && KeyedByName(f.docs) && capacity > 0
    requires moment <= |f.history| && |f.history| + 1 < TWO64
    ensures var held := View(t, DocsAt(f, moment));
            Client(held, Answer(f, capacity, moment, t, id)) == View(t, f.docs) <==>
              (0 < moment && |f.history| - moment <= capacity) || held.Keys <= f.docs.Keys
  {
    hide Consistent, KeyedByName, Listing, Bracketed, Client, EncodeResumeToken, Matching, Replay, AllCarry;
    NumberedHistory(f);
    ChangesSinceExact(f.history, capacity, moment, t);
    var changes := ChangesSince(Retained(f.history, capacity), moment, t);
    var held, token := View(t, DocsAt(f, moment)), EncodeResumeToken(|f.history|);
    if 0 < moment && changes.Some? {
      ResumedClientIsCurrent(f, capacity, t, moment, id, token);
    } else {
      var view := View(t, f.docs);
      ViewKeyed(t, f.docs);
      ClientBracketed(held, id, ChangeAll(Listing(view)), token);
      SnapshotOverStaleCache(held, view);
      HeldKeys(t, DocsAt(f, moment), f.docs);
    }
  }

  lemma NumberedHistory(f: Feed)
    requires Consistent(f)
    ensures Numbered(f.history)
  {}

  lemma ViewKeyed(t: Target, docs: Docs)
    requires KeyedByName(docs)
    ensures KeyedByName(View(t, docs))
  {}

  lemma HeldKeys(t: Target, past: Docs, now: Docs)
    ensures View(t, past).Keys <= View(t, now).Keys <==> View(t, past).Keys <= now.Keys
  {}

  lemma LogFacts(store: Store)
    requires store.Valid() && |store.feed.history| < TWO64
    ensures Consistent(store.feed) && store.log.changeLog.Length > 0 && store.log.seqNo == |store.feed.history|
  {
    SmallModulo(|store.feed.history|);
  }

  /** `AddTarget` sends the answer. */
  lemma {:induction false} ListenAnswers(store: Store, target: Target, moment: nat, id: int, shown: seq<Response<Document>>)
    requires store.Valid() && |store.feed.history| < TWO64 && moment < TWO64
    requires |shown| >= 2 && shown[0] == TargetAdded(id)
    requires shown[|shown| - 1] == TargetCurrent(id, EncodeResumeToken(store.log.seqNo))
    requires if Resumes(store, target, EncodeResumeToken(moment)) then
               AllCarry(Replayed(store, target, EncodeResumeToken(moment))) &&
               shown[1..|shown| - 1] == SendAll(Replayed(store, target, EncodeResumeToken(moment)))
             else shown[1..|shown| - 1] == ChangeAll(Listing(View(target, store.feed.docs)))
    ensures Consistent(store.feed) && store.log.changeLog.Length > 0
    ensures shown == Answer(store.feed, store.log.changeLog.Length, moment, target, id)
  {
    hide Store.Valid, Consistent, View, Listing, AllCarry, ChangesSince, Retained;
    LogFacts(store);
    ResumeTokenRoundTrip(moment, EncodeResumeToken(moment));
    assert shown == [shown[0]] + shown[1..|shown| - 1] + [shown[|shown| - 1]];
  }

  /** One document of a collection is created, and deleted while its listener is away; then another is
    written often enough to fill the log. */
  function WhileAway(capacity: nat): Feed {
    Run(Start(map[]), [Create("c/a", map[], 0), Delete("c/a")] + Rewrites("c/b", capacity))
  }

  /** The listener is refused, and after the snapshot it still holds the deleted document. */
  lemma {:induction false} DeletedDocumentStays(capacity: nat, id: int)
    requires 0 < capacity < TWO64 - 3
    ensures var f, t := WhileAway(capacity), Target("c/", "");
            && Consistent(f) && |f.history| == capacity + 2
            && ChangesSince(Retained(f.history, capacity), 1, t).None?
            && "c/a" in View(t, DocsAt(f, 1)) && "c/a" !in f.docs
            && Client(View(t, DocsAt(f, 1)), Answer(f, capacity, 1, t, id)) != View(t, f.docs)
  {
    hide Client, Answer, View, ChangesSince;
    var f, t := WhileAway(capacity), Target("c/", "");
    var ms := [Create("c/a", map[], 0), Delete("c/a")];
    RunKeepsConsistent(Start(map[]), ms + Rewrites("c/b", capacity));
    TwoMutations();
    RunConcat(Start(map[]), ms, Rewrites("c/b", capacity));
    RewritesWrite(Run(Start(map[]), ms), "c/b", capacity);
    AfterTheFirst(f, Run(Start(map[]), ms), t);
    ChangesSinceExact(f.history, capacity, 1, t);
    ReturningClientExact(f, capacity, t, 1, id);
  }

  lemma {:induction false} TwoMutations()
    ensures var g := Run(Start(map[]), [Create("c/a", map[], 0), Delete("c/a")]);
            && g.initial == map[] && g.docs == map[] && |g.history| == 2
            && g.history[0].name == "c/a" && g.history[0].doc.Some?
  {
    var c, d := Create("c/a", map[], 0), Delete("c/a");
    assert [c, d][1..] == [d] && [d][1..] == [];
    assert Run(Start(map[]), [c, d]) == Run(Apply(Start(map[]), c), [d]);
    assert Run(Apply(Start(map[]), c), [d]) == Run(Apply(Apply(Start(map[]), c), d), []);
  }

  lemma {:induction false} AfterTheFirst(f: Feed, g: Feed, t: Target)
    requires t == Target("c/", "") && f.initial == map[] && g.history <= f.history && |g.history| == 2
    requires g.history[0].name == "c/a" && g.history[0].doc.Some?
    ensures "c/a" in View(t, DocsAt(f, 1))
  {
    var e := g.history[0];
    assert f.history[..1] == [e] && [e][1..] == [];
    assert Replay(map[], [e]) == Replay(Receive(map[], e), []);
    assert "c/a"[..2] == "c/" && "c/a"[2..] == "a";
    assert Matches(t, "c/a");
  }
}
