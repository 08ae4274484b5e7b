/** The change feed as a state machine over values: documents, the whole history of change events, and
  what a client makes of snapshots and events. */
module FirestoreFeed {
  import opened Wrappers
  import opened Text
  import opened FirestoreEvents
  import opened FirestoreValues

  type DocEvent = Event<Document>

  type Docs = map<string, Document>

  function View(t: Target, docs: Docs): Docs {
    map name | name in docs && Matches(t, name) :: docs[name]
  }

  /** A view as it is listed: by ascending name. */
  ghost function Listing(v: Docs): seq<Document> {
    InOrder(v, Ascending(v.Keys))
  }

  function InOrder(v: Docs, names: seq<string>): seq<Document>
    requires forall name :: name in names ==> name in v
  {
    seq(|names|, i requires 0 <= i < |names| => v[names[i]])
  }

  // ---------- mutations ----------

  datatype Mutation =
    | Create(name: string, fields: Fields, now: int)
    | Update(name: string, fields: Fields, mask: seq<string>, now: int)
    | Delete(name: string)

  /** `history` is every event since the process started with the documents `initial`. */
  datatype Feed = Feed(initial: Docs, docs: Docs, history: seq<DocEvent>)

  /** Each masked field takes its value from the input, or goes if the input lacks it. */
  function ApplyMask(current: Fields, fields: Fields, mask: seq<string>): Fields
    decreases mask
  {
    if mask == [] then current
    else
      var f := mask[0];
      ApplyMask(if f in fields then current[f := fields[f]] else current - {f}, fields, mask[1..])
  }

  /** An empty mask replaces all fields. */
  function Updated(d: Document, fields: Fields, mask: seq<string>, now: int): Document {
    d.(fields := if mask == [] then fields else ApplyMask(d.fields, fields, mask), updateTime := now)
  }

  function Emit(f: Feed, name: string, kind: ChangeType, doc: Option<Document>): Feed {
    f.(docs := if doc.Some? then f.docs[name := doc.value] else f.docs - {name},
       history := f.history + [Event(name, kind, doc, (|f.history| + 1) % TWO64)])
  }

  function Apply(f: Feed, m: Mutation): Feed {
    match m
    case Create(name, fields, now) =>
      if name in f.docs then f else Emit(f, name, Added, Some(Document(name, fields, now, now)))
    case Update(name, fields, mask, now) =>
      if name !in f.docs then Emit(f, name, Added, Some(Document(name, fields, now, now)))
      else Emit(f, name, Modified, Some(Updated(f.docs[name], fields, mask, now)))
    case Delete(name) =>
      if name !in f.docs then f else Emit(f, name, Removed, None)
  }

  function Run(f: Feed, ms: seq<Mutation>): Feed
    decreases ms
  {
    if ms == [] then f else Run(Apply(f, ms[0]), ms[1..])
  }

  /** A freshly started store, with whatever documents were loaded from disk. */
  function Start(initial: Docs): Feed {
    Feed(initial, initial, [])
  }

  // ---------- what a mutation does ----------

  function FieldOf(fields: Fields, name: string): Option<Value> {
    if name in fields then Some(fields[name]) else None
  }

  /** `after` agrees with the input on the masked fields, those that the input lacks included, and with what
    was there before on all others. */
  ghost predicate Masked(before: Fields, input: Fields, mask: seq<string>, after: Fields) {
    forall name :: FieldOf(after, name) == FieldOf(if name in mask then input else before, name)
  }

  lemma {:induction false} ApplyMaskMasks(before: Fields, input: Fields, mask: seq<string>)
    ensures Masked(before, input, mask, ApplyMask(before, input, mask))
    decreases mask
  {
    if mask != [] {
      var f := mask[0];
      var next := if f in input then before[f := input[f]] else before - {f};
      ApplyMaskMasks(next, input, mask[1..]);
      assert forall name :: name in mask <==> name == f || name in mask[1..];
    }
  }

  /** What an update leaves of a document, or of none: without a mask, and for a new document, the fields are
    the input's. */
  ghost predicate LeftByUpdate(before: Option<Document>, after: Document, name: string, input: Fields,
                               mask: seq<string>, now: int) {
    && after.name == (if before.Some? then before.value.name else name)
    && after.createTime == (if before.Some? then before.value.createTime else now) && after.updateTime == now
    && if before.Some? && mask != [] then Masked(before.value.fields, input, mask, after.fields)
       else after.fields == input
  }

  ghost predicate OthersStay(before: Docs, after: Docs, name: string) {
    forall other :: other != name ==> Get(after, other) == Get(before, other)
  }

  /** One event is added, which says what became of the document. */
  ghost predicate Reports(f: Feed, g: Feed, name: string, kind: ChangeType) {
    && |g.history| == |f.history| + 1 && f.history <= g.history
    && var e := g.history[|f.history|];
       e.name == name && e.kind == kind && e.doc == Get(g.docs, name)
  }

  lemma {:induction false} UpdateMeans(f: Feed, name: string, input: Fields, mask: seq<string>, now: int)
    ensures var g := Apply(f, Update(name, input, mask, now));
            && name in g.docs && LeftByUpdate(Get(f.docs, name), g.docs[name], name, input, mask, now)
            && OthersStay(f.docs, g.docs, name)
            && Reports(f, g, name, if name in f.docs then Modified else Added)
  {
    if name in f.docs { ApplyMaskMasks(f.docs[name].fields, input, mask); }
    hide ApplyMask, Masked;
  }

  lemma {:induction false} CreateMeans(f: Feed, name: string, input: Fields, now: int)
    ensures var g := Apply(f, Create(name, input, now));
            if name in f.docs then g == f
            else
              && Get(g.docs, name) == Some(Document(name, input, now, now))
              && OthersStay(f.docs, g.docs, name) && Reports(f, g, name, Added)
  {}

  lemma {:induction false} DeleteMeans(f: Feed, name: string)
    ensures var g := Apply(f, Delete(name));
            if name !in f.docs then g == f
            else name !in g.docs && OthersStay(f.docs, g.docs, name) && Reports(f, g, name, Removed)
  {}

  // ---------- replay ----------

  /** A client's cache after it receives an event. */
  function Receive(v: Docs, e: DocEvent): Docs {
    if e.doc.Some? then v[e.name := e.doc.value] else v - {e.name}
  }

  function Replay(v: Docs, events: seq<DocEvent>): Docs
    decreases events
  {
    if events == [] then v else Replay(Receive(v, events[0]), events[1..])
  }

  /** The documents when the history had `s` events. */
  function DocsAt(f: Feed, s: nat): Docs
    requires s <= |f.history|
  {
    Replay(f.initial, f.history[..s])
  }

  predicate KeyedByName(d: Docs) {
    forall name :: name in d ==> d[name].name == name
  }

  /** What every run keeps: events are numbered from 1, an event carries a document unless it is a
    removal, and the history explains the documents. */
  ghost predicate Consistent(f: Feed) {
    && f.docs == Replay(f.initial, f.history)
    && Numbered(f.history)
    && forall i :: 0 <= i < |f.history| ==>
         && (f.history[i].doc.None? <==> f.history[i].kind == Removed)
         && (f.history[i].doc.Some? ==> f.history[i].doc.value.name == f.history[i].name)
  }

  lemma {:induction false} ReplayConcat(v: Docs, a: seq<DocEvent>, b: seq<DocEvent>)
    ensures Replay(v, a + b) == Replay(Replay(v, a), b)
    decreases a
  {
    if a == [] {
      assert a + b == b;
    } else {
      assert (a + b)[0] == a[0] && (a + b)[1..] == a[1..] + b;
      ReplayConcat(Receive(v, a[0]), a[1..], b);
    }
  }

  lemma EmitConsistent(f: Feed, name: string, kind: ChangeType, value: Option<Document>)
    requires Consistent(f) && (kind == Removed <==> value.None?)
    requires value.Some? ==> value.value.name == name
    ensures Consistent(Emit(f, name, kind, value))
  {
    var v := Event(name, kind, value, (|f.history| + 1) % TWO64);
    ReplayConcat(f.initial, f.history, [v]);
    assert [v][1..] == [];
    assert Replay(Receive(f.docs, v), []) == Receive(f.docs, v);
  }

  lemma {:induction false} ApplyKeepsConsistent(f: Feed, m: Mutation)
    requires Consistent(f) && KeyedByName(f.docs)
    ensures Consistent(Apply(f, m)) && KeyedByName(Apply(f, m).docs)
    ensures f.history <= Apply(f, m).history && Apply(f, m).initial == f.initial
  {
    match m {
      case Create(name, fields, now) =>
        EmitConsistent(f, name, Added, Some(Document(name, fields, now, now)));
      case Update(name, fields, mask, now) =>
        EmitConsistent(f, name, Added, Some(Document(name, fields, now, now)));
        if name in f.docs { EmitConsistent(f, name, Modified, Some(Updated(f.docs[name], fields, mask, now))); }
      case Delete(name) =>
        EmitConsistent(f, name, Removed, None);
    }
  }

  lemma {:induction false} RunKeepsConsistent(f: Feed, ms: seq<Mutation>)
    requires Consistent(f) && KeyedByName(f.docs)
    ensures Consistent(Run(f, ms)) && KeyedByName(Run(f, ms).docs)
    ensures f.history <= Run(f, ms).history && Run(f, ms).initial == f.initial
    decreases ms
  {
    if ms != [] {
      ApplyKeepsConsistent(f, ms[0]);
      RunKeepsConsistent(Apply(f, ms[0]), ms[1..]);
    }
  }

  lemma {:induction false} RunConcat(f: Feed, a: seq<Mutation>, b: seq<Mutation>)
    ensures Run(f, a + b) == Run(Run(f, a), b)
    decreases a
  {
    if a == [] {
      assert a + b == b;
    } else {
      assert (a + b)[0] == a[0] && (a + b)[1..] == a[1..] + b;
      RunConcat(Apply(f, a[0]), a[1..], b);
    }
  }

  /** An earlier state of a run is what the history says the documents were then. */
  lemma EarlierState(f: Feed, ms: seq<Mutation>)
    requires Consistent(f) && KeyedByName(f.docs)
    ensures |f.history| <= |Run(f, ms).history|
    ensures DocsAt(Run(f, ms), |f.history|) == f.docs
  {
    RunKeepsConsistent(f, ms);
    assert Run(f, ms).history[..|f.history|] == f.history;
  }

  // ---------- replay and views ----------

  lemma {:induction false} ReplayOfView(t: Target, v: Docs, events: seq<DocEvent>)
    ensures Replay(View(t, v), Matching(t, events)) == View(t, Replay(v, events))
    decreases events
  {
    if events != [] {
      var e := events[0];
      ReplayOfView(t, Receive(v, e), events[1..]);
      if Matches(t, e.name) {
        assert Receive(View(t, v), e) == View(t, Receive(v, e));
        assert ([e] + Matching(t, events[1..]))[1..] == Matching(t, events[1..]);
      } else {
        assert View(t, v) == View(t, Receive(v, e));
      }
    }
  }

  /** Resume is exact. A client that saw the documents at some moment of a run, and later presents the
    token of that moment, is either told to start over or sent events that turn its view into the
    present one. */
  lemma {:induction false} ResumeIsExact(initial: Docs, before: seq<Mutation>, after: seq<Mutation>, capacity: nat, t: Target)
    requires capacity > 0 && KeyedByName(initial)
    requires |Run(Start(initial), before + after).history| + 1 < TWO64
    ensures var past, now := Run(Start(initial), before), Run(Start(initial), before + after);
            var token := |past.history|;
            var answer := ChangesSince(Retained(now.history, capacity), token, t);
            && (answer.None? <==> |now.history| - token > capacity)
            && (answer.Some? ==> Replay(View(t, past.docs), answer.value) == View(t, now.docs))
  {
    var past, now := Run(Start(initial), before), Run(Start(initial), before + after);
    var token := |past.history|;
    RunConcat(Start(initial), before, after);
    RunKeepsConsistent(Start(initial), before);
    RunKeepsConsistent(past, after);
    EarlierState(past, after);
    ChangesSinceExact(now.history, capacity, token, t);
    assert now.history == past.history + now.history[token..];
    ReplayConcat(initial, past.history, now.history[token..]);
    ReplayOfView(t, past.docs, now.history[token..]);
  }

  // ---------- events delivered twice ----------

  function Get(v: Docs, name: string): Option<Document> {
    if name in v then Some(v[name]) else None
  }

  /** The last event about `name`. */
  function Last(events: seq<DocEvent>, name: string): Option<DocEvent> {
    if events == [] then None
    else
      var later := Last(events[1..], name);
      if later.Some? then later else if events[0].name == name then Some(events[0]) else None
  }

  /** Replay leaves each document as the last event about it says, and the others alone. */
  lemma {:induction false} ReplayAt(v: Docs, events: seq<DocEvent>, name: string)
    ensures Get(Replay(v, events), name) ==
            if Last(events, name).None? then Get(v, name) else Last(events, name).value.doc
    decreases events
  {
    if events != [] {
      ReplayAt(Receive(v, events[0]), events[1..], name);
    }
  }

  lemma {:induction false} LastMatching(t: Target, events: seq<DocEvent>, name: string)
    ensures Last(Matching(t, events), name) == if Matches(t, name) then Last(events, name) else None
  {
    if events != [] {
      LastMatching(t, events[1..], name);
      var rest := Matching(t, events[1..]);
      assert ([events[0]] + rest)[1..] == rest;
    }
  }

  lemma {:induction false} LastConcat(a: seq<DocEvent>, b: seq<DocEvent>, name: string)
    ensures Last(a + b, name) == if Last(b, name).Some? then Last(b, name) else Last(a, name)
  {
    if a == [] {
      assert a + b == b;
    } else {
      assert (a + b)[0] == a[0] && (a + b)[1..] == a[1..] + b;
      LastConcat(a[1..], b, name);
    }
  }

  lemma SameView(v: Docs, w: Docs)
    requires forall name :: Get(v, name) == Get(w, name)
    ensures v == w
  {
    assert forall name :: name in v <==> Get(v, name).Some?;
    assert forall name :: name in w <==> Get(w, name).Some?;
    forall name | name in v ensures v[name] == w[name] {
      assert Get(v, name) == Get(w, name);
    }
  }

  lemma DocsAtStep(f: Feed, r: nat, s: nat, name: string)
    requires r <= s <= |f.history|
    ensures Get(DocsAt(f, s), name) ==
            if Last(f.history[r..s], name).None? then Get(DocsAt(f, r), name)
            else Last(f.history[r..s], name).value.doc
  {
    assert f.history[..s] == f.history[..r] + f.history[r..s];
    ReplayConcat(f.initial, f.history[..r], f.history[r..s]);
    ReplayAt(DocsAt(f, r), f.history[r..s], name);
  }

  lemma SplitAt<T>(x: seq<T>, r: nat, s: nat, n: nat)
    requires r <= s <= n <= |x|
    ensures x[r..n] == x[r..s] + x[s..n]
  {}

  /** Watching before taking the snapshot is safe: with the watcher registered at `r` and the snapshot
    taken at `s`, the events from `r` on, the first of which the snapshot already reflects, bring the
    client to the state at `n`. */
  lemma {:induction false} WatchBeforeSnapshot(f: Feed, r: nat, s: nat, n: nat, t: Target)
    requires r <= s <= n <= |f.history|
    ensures Replay(View(t, DocsAt(f, s)), Matching(t, f.history[r..n])) == View(t, DocsAt(f, n))
  {
    var live := Matching(t, f.history[r..n]);
    var final := Replay(View(t, DocsAt(f, s)), live);
    forall name ensures Get(final, name) == Get(View(t, DocsAt(f, n)), name) {
      ReplayAt(View(t, DocsAt(f, s)), live, name);
      LastMatching(t, f.history[r..n], name);
      DocsAtStep(f, r, n, name);
      DocsAtStep(f, r, s, name);
      SplitAt(f.history, r, s, n);
      LastConcat(f.history[r..s], f.history[s..n], name);
    }
    SameView(final, View(t, DocsAt(f, n)));
  }

  // ---------- the token that is read too late ----------

  /** `Listen` reads the token it sends with CURRENT after the snapshot. A client that kept only the
    snapshot of moment `s` and resumes at `n` with the later token `c` is right exactly when each
    covered document either was rewritten since `c` or did not differ between `s` and `c`. */
  lemma {:induction false} LateTokenExact(f: Feed, s: nat, c: nat, n: nat, t: Target)
    requires s <= c <= n <= |f.history|
    ensures Replay(View(t, DocsAt(f, s)), Matching(t, f.history[c..n])) == View(t, DocsAt(f, n))
       <==> forall name :: Matches(t, name) && Last(f.history[c..n], name).None? ==>
                             Get(DocsAt(f, s), name) == Get(DocsAt(f, c), name)
  {
    var missed := Matching(t, f.history[c..n]);
    var final, now := Replay(View(t, DocsAt(f, s)), missed), View(t, DocsAt(f, n));
    forall name
      ensures Get(final, name) == Get(now, name)
         <==> (Matches(t, name) && Last(f.history[c..n], name).None? ==>
                 Get(DocsAt(f, s), name) == Get(DocsAt(f, c), name))
    {
      ReplayAt(View(t, DocsAt(f, s)), missed, name);
      LastMatching(t, f.history[c..n], name);
      DocsAtStep(f, c, n, name);
    }
    if forall name :: Get(final, name) == Get(now, name) { SameView(final, now); }
  }

  /** A write between the snapshot and the reading of the token is then lost to the client. */
  lemma {:induction false} LateTokenLosesAWrite()
    ensures var f := Run(Start(map[]), [Create("c/a", map[], 0)]);
            var t := Target("c/", "");
            Replay(View(t, DocsAt(f, 0)), Matching(t, f.history[1..1])) != View(t, DocsAt(f, 1))
  {
    var f := Run(Start(map[]), [Create("c/a", map[], 0)]);
    assert f == Apply(Start(map[]), Create("c/a", map[], 0)) by {
      assert [Create("c/a", map[], 0)][1..] == [];
    }
    assert f.history[..1] == f.history && f.history[1..1] == [] && f.history[..0] == [];
    assert f.history[1..] == [];
    var t := Target("c/", "");
    assert "c/a"[..2] == "c/" && "c/a"[2..] == "a";
    assert Matches(t, "c/a");
    assert "c/a" in View(t, DocsAt(f, 1));
    assert DocsAt(f, 0) == map[];
  }
}
