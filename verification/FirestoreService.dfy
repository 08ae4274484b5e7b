/** The Listen handshake, resume tokens, and Commit, on top of the Firestore store. */
module FirestoreService {
  import opened Wrappers
  import opened Text
  import opened FirestoreValues
  import opened FirestoreEvents
  import opened FirestoreFeed
  import opened FirestoreWatch
  import opened FirestoreChangeLog
  import opened FirestoreStore

  // ---------- resume tokens ----------

  function BigEndian(n: nat, width: nat): (bytes: seq<nat>)
    ensures |bytes| == width && forall b :: b in bytes ==> b < 256
  {
    if width == 0 then [] else BigEndian(n / 256, width - 1) + [n % 256]
  }

  function FromBigEndian(bytes: seq<nat>): nat {
    if bytes == [] then 0 else FromBigEndian(bytes[..|bytes| - 1]) * 256 + bytes[|bytes| - 1]
  }

  function Pow256(width: nat): nat {
    if width == 0 then 1 else 256 * Pow256(width - 1)
  }

  lemma {:induction false} BigEndianRoundTrip(n: nat, width: nat)
    requires n < Pow256(width)
    ensures FromBigEndian(BigEndian(n, width)) == n
  {
    if width > 0 {
      BigEndianRoundTrip(n / 256, width - 1);
      assert BigEndian(n, width)[..width - 1] == BigEndian(n / 256, width - 1);
    }
  }

  lemma {:induction false} FromBigEndianRoundTrip(bytes: seq<nat>)
    requires forall b :: b in bytes ==> b < 256
    ensures FromBigEndian(bytes) < Pow256(|bytes|)
    ensures BigEndian(FromBigEndian(bytes), |bytes|) == bytes
  {
    if bytes != [] {
      var front, last := bytes[..|bytes| - 1], bytes[|bytes| - 1];
      assert bytes == front + [last];
      assert last in bytes && forall b :: b in front ==> b in bytes;
      FromBigEndianRoundTrip(front);
      DivideBy256(FromBigEndian(front), last);
    }
  }

  /** The most significant byte comes first. */
  lemma {:induction false} FirstByteCountsMost(b: nat, rest: seq<nat>)
    ensures FromBigEndian([b] + rest) == b * Pow256(|rest|) + FromBigEndian(rest)
  {
    if rest == [] {
      assert [b] + rest == [b] && [b][..0] == [];
    } else {
      var n := |rest| - 1;
      assert ([b] + rest)[..n + 1] == [b] + rest[..n];
      FirstByteCountsMost(b, rest[..n]);
      TimesScaled(b, Pow256(n), 256);
    }
  }

  lemma TimesScaled(b: nat, p: nat, k: nat)
    ensures b * (k * p) == b * p * k
  {}

  lemma DivideBy256(q: nat, r: nat)
    requires r < 256
    ensures (q * 256 + r) / 256 == q && (q * 256 + r) % 256 == r
  {}

  function EncodeResumeToken(seqNo: nat): seq<nat> {
    BigEndian(seqNo, 8)
  }

  function DecodeResumeToken(token: seq<nat>): Option<nat> {
    if |token| != 8 then None else Some(FromBigEndian(token))
  }

  lemma EightBytes()
    ensures Pow256(8) == TWO64
  {
    assert Pow256(4) == 0x1_0000_0000;
  }

  /** Encoding and decoding are inverses between 64-bit numbers and 8-byte tokens; every other token is
    rejected. */
  lemma {:induction false} ResumeTokenRoundTrip(seqNo: nat, token: seq<nat>)
    requires seqNo < TWO64 && forall b :: b in token ==> b < 256
    ensures DecodeResumeToken(EncodeResumeToken(seqNo)) == Some(seqNo)
    ensures DecodeResumeToken(token).Some? <==> |token| == 8
    ensures DecodeResumeToken(token).Some? ==>
              DecodeResumeToken(token).value < TWO64 && EncodeResumeToken(DecodeResumeToken(token).value) == token
  {
    EightBytes();
    BigEndianRoundTrip(seqNo, 8);
    FromBigEndianRoundTrip(token);
  }

  // ---------- what a client is sent ----------

  datatype Response<+D> =
    | TargetAdded(id: int)
    | DocumentChange(doc: D)
    | DocumentDelete(name: string)
    | TargetCurrent(id: int, token: seq<nat>)

  ghost predicate ResponseDenotes(r: Record, s: Response<DocumentRef>, v: Response<Document>) {
    match s
    case TargetAdded(id) => v == TargetAdded(id)
    case DocumentChange(doc) => v.DocumentChange? && RefersTo(r, doc, v.doc)
    case DocumentDelete(name) => v == DocumentDelete(name)
    case TargetCurrent(id, token) => v == TargetCurrent(id, token)
  }

  ghost predicate ResponsesDenote(r: Record, ss: seq<Response<DocumentRef>>, vs: seq<Response<Document>>) {
    |ss| == |vs| && forall i :: 0 <= i < |ss| ==> ResponseDenotes(r, ss[i], vs[i])
  }

  /** A client's cache of a target after it is sent `responses`. */
  function Client(cache: Docs, responses: seq<Response<Document>>): Docs
    decreases responses
  {
    if responses == [] then cache
    else
      var next := match responses[0]
                  case DocumentChange(doc) => cache[doc.name := doc]
                  case DocumentDelete(name) => cache - {name}
                  case _ => cache;
      Client(next, responses[1..])
  }

  function SendDocumentChange<D>(e: Event<D>): Response<D>
    requires e.kind != Removed ==> e.doc.Some?
  {
    if e.kind == Removed then DocumentDelete(e.name) else DocumentChange(e.doc.value)
  }

  ghost predicate Carries(e: DocEvent) {
    (e.doc.None? <==> e.kind == Removed) && (e.doc.Some? ==> e.doc.value.name == e.name)
  }

  ghost predicate AllCarry(events: seq<DocEvent>) {
    forall i :: 0 <= i < |events| ==> Carries(events[i])
  }

  function SendAll<D>(events: seq<Event<D>>): seq<Response<D>>
    requires forall e :: e in events ==> e.kind != Removed ==> e.doc.Some?
  {
    seq(|events|, i requires 0 <= i < |events| => SendDocumentChange(events[i]))
  }

  function ChangeAll<D>(docs: seq<D>): seq<Response<D>> {
    seq(|docs|, i requires 0 <= i < |docs| => DocumentChange(docs[i]))
  }

  /** Sent events do to the client's cache what replay does to a view. */
  lemma {:induction false} ClientReplays(cache: Docs, events: seq<DocEvent>)
    requires AllCarry(events)
    ensures Client(cache, SendAll(events)) == Replay(cache, events)
    decreases events
  {
    if events != [] {
      assert Carries(events[0]);
      assert forall i :: 0 <= i < |events[1..]| ==> events[1..][i] == events[i + 1];
      ClientReplays(Receive(cache, events[0]), events[1..]);
      assert SendAll(events)[1..] == SendAll(events[1..]);
    }
  }

  lemma {:induction false} ClientConcat(cache: Docs, a: seq<Response<Document>>, b: seq<Response<Document>>)
    ensures Client(cache, a + b) == Client(Client(cache, a), b)
    decreases a
  {
    if a == [] {
      assert a + b == b;
    } else {
      assert (a + b)[0] == a[0] && (a + b)[1..] == a[1..] + b;
      ClientConcat(Client(cache, [a[0]]), a[1..], b);
      assert Client(cache, a) == Client(Client(cache, [a[0]]), a[1..]);
    }
  }

  /** A snapshot overwrites the cache with what it lists. */
  lemma {:induction false} ClientTakesDocuments(cache: Docs, view: Docs, names: seq<string>)
    requires KeyedByName(view) && forall name :: name in names ==> name in view
    ensures Client(cache, ChangeAll(InOrder(view, names))) == cache + map name | name in names :: view[name]
    decreases names
  {
    if names != [] {
      var name := names[0];
      var sent := ChangeAll(InOrder(view, names));
      assert sent[0] == DocumentChange(view[name]) && sent[1..] == ChangeAll(InOrder(view, names[1..]));
      ClientTakesDocuments(cache[name := view[name]], view, names[1..]);
      assert forall n :: n in names <==> n == name || n in names[1..];
    }
  }

  lemma ClientTakesSnapshot(cache: Docs, view: Docs)
    requires KeyedByName(view)
    ensures Client(cache, ChangeAll(Listing(view))) == cache + view
  {
    var names := Ascending(view.Keys);
    hide Ascending, IsAscending, Client;
    ClientTakesDocuments(cache, view, names);
    MapOfNames(view, names);
  }

  lemma MapOfNames(view: Docs, names: seq<string>)
    requires forall name :: name in names <==> name in view
    ensures (map name | name in names :: view[name]) == view
  {
  }

  /** No reset precedes the snapshot that answers a refused resume, so a client that still holds an old
    cache ends with the right view exactly when none of the documents it holds has gone. */
  lemma {:induction false} SnapshotOverStaleCache(cache: Docs, view: Docs)
    requires KeyedByName(view)
    ensures Client(cache, ChangeAll(Listing(view))) == view <==> cache.Keys <= view.Keys
  {
    ClientTakesSnapshot(cache, view);
    MergeAbsorbs(cache, view);
  }

  lemma MergeAbsorbs<K, V>(a: map<K, V>, b: map<K, V>)
    ensures a + b == b <==> a.Keys <= b.Keys
  {
    assert (a + b).Keys == a.Keys + b.Keys;
    if a.Keys <= b.Keys { assert a + b == b; }
  }

  // ---------- Listen ----------

  /** Whether a target is resumed from its token instead of being sent a snapshot. */
  ghost predicate Resumes(store: Store, target: Target, token: seq<nat>)
    reads store, store.log
  {
    && DecodeResumeToken(token).Some?
    && DecodeResumeToken(token).value > 0
    && ChangesSince(Retained(store.feed.history, store.log.changeLog.Length),
                    DecodeResumeToken(token).value, target).Some?
  }

  lemma MatchingCarries(t: Target, events: seq<DocEvent>)
    requires AllCarry(events)
    ensures AllCarry(Matching(t, events))
  {
    if events != [] {
      assert Carries(events[0]);
      assert forall i :: 0 <= i < |events[1..]| ==> events[1..][i] == events[i + 1];
      MatchingCarries(t, events[1..]);
    }
  }

  lemma AfterCarries(events: seq<DocEvent>, token: nat)
    requires AllCarry(events)
    ensures AllCarry(After(events, token))
  {
    if events != [] {
      assert Carries(events[0]);
      assert forall i :: 0 <= i < |events[1..]| ==> events[1..][i] == events[i + 1];
      AfterCarries(events[1..], token);
    }
  }

  lemma {:induction false} ChangesCarry(f: Feed, capacity: nat, token: nat, t: Target)
    requires Consistent(f) && capacity > 0
    ensures var answer := ChangesSince(Retained(f.history, capacity), token, t);
            answer.Some? ==> AllCarry(answer.value)
  {
    var log := Retained(f.history, capacity);
    forall i | 0 <= i < |log| ensures Carries(log[i]) {
      assert log[i] == f.history[|f.history| - |log| + i];
    }
    AfterCarries(log, token);
    MatchingCarries(t, After(log, token));
  }

  lemma EventsDenoteResponses(r: Record, es: seq<HeapEvent>, vs: seq<DocEvent>)
    requires DenoteAll(r, es, vs) && AllCarry(vs)
    ensures forall e :: e in es ==> e.kind != Removed ==> e.doc.Some?
    ensures ResponsesDenote(r, SendAll(es), SendAll(vs))
  {
    forall e | e in es ensures e.kind != Removed ==> e.doc.Some? {
      var i :| 0 <= i < |es| && es[i] == e;
      assert Denotes(r, es[i], vs[i]) && Carries(vs[i]);
    }
    forall i | 0 <= i < |es| ensures ResponseDenotes(r, SendAll(es)[i], SendAll(vs)[i]) {
      assert Denotes(r, es[i], vs[i]) && Carries(vs[i]);
    }
  }

  /** Adding a target, taken as one step: watch, announce, replay or snapshot, and send the current
    token. `shown` is what the sent documents contain. */
  method AddTarget(store: Store, id: int, target: Target, token: seq<nat>)
    returns (sent: seq<Response<DocumentRef>>, ghost shown: seq<Response<Document>>)
    requires store.Valid() && forall b :: b in token ==> b < 256
    modifies store`recorded, store.log`watchers, store.log`logs
    ensures store.Valid() && ResponsesDenote(store.recorded, sent, shown)
    ensures store.log.Now() == if target == Target("", "") then old(store.log.Now())
                               else Registered(old(store.log.Now()), id, target)
    ensures target == Target("", "") ==> sent == []
    ensures target != Target("", "") ==>
              && |shown| >= 2 && shown[0] == TargetAdded(id)
              && shown[|shown| - 1] == TargetCurrent(id, EncodeResumeToken(store.log.seqNo))
              && if Resumes(store, target, token) then
                   AllCarry(Replayed(store, target, token)) &&
                   shown[1..|shown| - 1] == SendAll(Replayed(store, target, token))
                 else shown[1..|shown| - 1] == ChangeAll(Listing(View(target, store.feed.docs)))
  {
    hide Store.Valid, ResponsesDenote, Bracketed, BigEndian, FromBigEndian, SendAll, ChangeAll, AllCarry;
    if target.prefix == "" && target.docName == "" {
      NothingDenotes(store.recorded);
      return [], [];
    }
    store.AddWatcher(id, target);
    var body: seq<Response<DocumentRef>>;
    ghost var content: seq<Response<Document>>;
    var resumed := false;
    var afterSeq := DecodeResumeToken(token);
    ResumeTokenRoundTrip(0, token);
    if afterSeq.Some? && afterSeq.value > 0 {
      resumed, body, content := Resume(store, afterSeq.value, target);
    }
    if !resumed {
      body, content := Snapshot(store, target);
    }
    var currentSeq := store.log.seqNo;
    sent := Bracketed(id, body, EncodeResumeToken(currentSeq));
    shown := Bracketed(id, content, EncodeResumeToken(currentSeq));
    BracketedDenotes(store.recorded, id, body, content, EncodeResumeToken(currentSeq));
  }

  lemma NothingDenotes(r: Record)
    ensures ResponsesDenote(r, [], [])
  {}

  /** A target's responses, between the ADD and the CURRENT messages. */
  function Bracketed<D>(id: int, body: seq<Response<D>>, token: seq<nat>): (r: seq<Response<D>>)
    ensures |r| == |body| + 2 && r[0] == TargetAdded(id) && r[|r| - 1] == TargetCurrent(id, token)
    ensures r[1..|r| - 1] == body
  {
    [TargetAdded(id)] + body + [TargetCurrent(id, token)]
  }

  lemma BracketedDenotes(r: Record, id: int, body: seq<Response<DocumentRef>>, content: seq<Response<Document>>,
                         token: seq<nat>)
    requires ResponsesDenote(r, body, content)
    ensures ResponsesDenote(r, Bracketed(id, body, token), Bracketed(id, content, token))
  {
    var b, c := Bracketed(id, body, token), Bracketed(id, content, token);
    forall i | 0 <= i < |b| ensures ResponseDenotes(r, b[i], c[i]) {
      if 0 < i < |b| - 1 { assert ResponseDenotes(r, body[i - 1], content[i - 1]); }
    }
  }

  method Snapshot(store: Store, target: Target)
    returns (body: seq<Response<DocumentRef>>, ghost content: seq<Response<Document>>)
    requires store.Valid() && target != Target("", "")
    modifies store`recorded
    ensures store.Valid() && ResponsesDenote(store.recorded, body, content)
    ensures content == ChangeAll(Listing(View(target, store.feed.docs)))
  {
    hide Store.Valid, RefersTo, View, Listing;
    var snapshot := store.SnapshotDocuments(target);
    ghost var listing := Listing(View(target, store.feed.docs));
    body, content := ChangeAll(snapshot), ChangeAll(listing);
    assert forall i :: 0 <= i < |snapshot| ==> RefersTo(store.recorded, snapshot[i], listing[i]);
  }

  ghost function Replayed(store: Store, target: Target, token: seq<nat>): seq<DocEvent>
    requires Resumes(store, target, token)
    reads store, store.log
  {
    ChangesSince(Retained(store.feed.history, store.log.changeLog.Length),
                 DecodeResumeToken(token).value, target).value
  }

  method Resume(store: Store, token: nat, target: Target)
    returns (resumed: bool, body: seq<Response<DocumentRef>>, ghost content: seq<Response<Document>>)
    requires store.Valid() && token < TWO64
    ensures var answer := ChangesSince(Retained(store.feed.history, store.log.changeLog.Length), token, target);
            && resumed == answer.Some?
            && (resumed ==> AllCarry(answer.value) && content == SendAll(answer.value))
            && (resumed ==> ResponsesDenote(store.recorded, body, content))
  {
    var changes, values := store.ChangesSince(token, target);
    ChangesCarry(store.feed, store.log.changeLog.Length, token, target);
    if changes.None? { return false, [], []; }
    EventsDenoteResponses(store.recorded, changes.value, values.value);
    resumed, body, content := true, SendAll(changes.value), SendAll(values.value);
  }

  lemma ClientBracketed(cache: Docs, id: int, body: seq<Response<Document>>, token: seq<nat>)
    ensures Client(cache, Bracketed(id, body, token)) == Client(cache, body)
  {
    var first, last := [TargetAdded(id)], [TargetCurrent(id, token)];
    ClientConcat(cache, first + body, last);
    ClientConcat(cache, first, body);
    assert first[1..] == [] && last[1..] == [];
    assert Client(cache, first) == Client(cache, []) == cache;
    assert Client(Client(cache, body), last) == Client(Client(cache, body), []);
  }

  /** A client that holds the view of the moment its token names, and is resumed, is brought up to date. */
  lemma {:induction false} ResumedClientIsCurrent(f: Feed, capacity: nat, t: Target, moment: nat, id: int, token: seq<nat>)
    requires Consistent(f) && capacity > 0 && moment <= |f.history| && |f.history| + 1 < TWO64
    requires ChangesSince(Retained(f.history, capacity), moment, t).Some?
    ensures var changes := ChangesSince(Retained(f.history, capacity), moment, t).value;
            && AllCarry(changes)
            && Client(View(t, DocsAt(f, moment)), Bracketed(id, SendAll(changes), token)) == View(t, f.docs)
  {
    hide AllCarry, Matching, Replay, Client, Bracketed, SendAll, View, ChangesSince;
    ConsistentFacts(f);
    var changes := ChangesSince(Retained(f.history, capacity), moment, t).value;
    var view, since := View(t, DocsAt(f, moment)), f.history[moment..];
    ChangesCarry(f, capacity, moment, t);
    ChangesSinceExact(f.history, capacity, moment, t);
    assert changes == Matching(t, since);
    CarriersSend(changes);
    ClientBracketed(view, id, SendAll(changes), token);
    ClientReplays(view, changes);
    ReplayOfView(t, DocsAt(f, moment), since);
    assert f.history == f.history[..moment] + since;
    ReplayConcat(f.initial, f.history[..moment], since);
  }

  lemma CarriersSend(events: seq<DocEvent>)
    requires AllCarry(events)
    ensures forall e :: e in events ==> e.kind != Removed ==> e.doc.Some?
  {
    forall e | e in events ensures e.kind != Removed ==> e.doc.Some? {
      var i :| 0 <= i < |events| && events[i] == e;
      assert Carries(events[i]);
    }
  }

  lemma ConsistentFacts(f: Feed)
    requires Consistent(f)
    ensures f.docs == Replay(f.initial, f.history) && Numbered(f.history)
  {}

  /** A client with an empty cache that is sent a snapshot is brought up to date. */
  lemma {:induction false} FreshClientIsCurrent(f: Feed, t: Target, id: int, token: seq<nat>)
    requires KeyedByName(f.docs)
    ensures Client(map[], Bracketed(id, ChangeAll(Listing(View(t, f.docs))), token)) == View(t, f.docs)
  {
    var view := View(t, f.docs);
    ClientBracketed(map[], id, ChangeAll(Listing(view)), token);
    hide Matches;
    SnapshotOverStaleCache(map[], view);
  }

  // ---------- Commit ----------

  datatype Write =
    | UpdateWrite(name: string, fields: FieldMap?, mask: seq<string>)
    | DeleteWrite(name: string)
    | TransformWrite
    | OtherWrite

  /** The mutation that a write asks for, if any: transforms are acknowledged and do nothing. `value` is
    the contents of its field map. */
  function OneWrite(w: Write, value: Fields, now: int): seq<Mutation> {
    match w
    case UpdateWrite(name, _, mask) => [Update(name, value, mask, now)]
    case DeleteWrite(name) => [Delete(name)]
    case _ => []
  }

  function Mutations(writes: seq<Write>, values: seq<Fields>, times: seq<int>): seq<Mutation>
    requires |values| == |writes| == |times|
  {
    if writes == [] then []
    else OneWrite(writes[0], values[0], times[0]) + Mutations(writes[1..], values[1..], times[1..])
  }

  /** The last write is applied to what the writes before it have made. */
  lemma {:induction false} LastWriteComesLast(f: Feed, writes: seq<Write>, values: seq<Fields>, times: seq<int>, w: Write,
                                              value: Fields, now: int)
    requires |values| == |writes| == |times|
    ensures Mutations([], [], []) == []
    ensures Run(f, Mutations(writes + [w], values + [value], times + [now])) ==
            var before := Run(f, Mutations(writes, values, times));
            if w.UpdateWrite? then Apply(before, Update(w.name, value, w.mask, now))
            else if w.DeleteWrite? then Apply(before, Delete(w.name))
            else before
  {
    hide Apply;
    MutationsSnoc(writes, values, times, w, value, now);
    RunConcat(f, Mutations(writes, values, times), OneWrite(w, value, now));
    var before, ms := Run(f, Mutations(writes, values, times)), OneWrite(w, value, now);
    if ms != [] { assert Run(before, ms) == Run(Apply(before, ms[0]), []); }
  }

  lemma {:induction false} MutationsSnoc(writes: seq<Write>, values: seq<Fields>, times: seq<int>, w: Write, value: Fields,
                                         now: int)
    requires |values| == |writes| == |times|
    ensures Mutations(writes + [w], values + [value], times + [now]) ==
            Mutations(writes, values, times) + OneWrite(w, value, now)
  {
    if writes != [] {
      MutationsSnoc(writes[1..], values[1..], times[1..], w, value, now);
      assert (writes + [w])[1..] == writes[1..] + [w] && (values + [value])[1..] == values[1..] + [value];
      assert (times + [now])[1..] == times[1..] + [now];
    }
  }

  function Contents(w: Write): Fields
    reads if w.UpdateWrite? then w.fields else null
  {
    if w.UpdateWrite? then Entries(w.fields) else map[]
  }

  /** The store has never seen the field map of `w`. */
  ghost predicate Unseen(w: Write, store: Store)
    reads store
  {
    w.UpdateWrite? && w.fields != null ==> w.fields !in store.owner && w.fields !in store.recorded
  }

  /** The field map of `w`, if it has one, is among `maps`. */
  ghost predicate MapIn(w: Write, maps: set<FieldMap>) {
    w.UpdateWrite? && w.fields != null ==> w.fields in maps
  }

  ghost predicate SharesNoMap(w: Write, x: Write) {
    w.UpdateWrite? && x.UpdateWrite? && w.fields != null ==> w.fields != x.fields
  }

  /** What a decoded request guarantees: every field map in it is its own, and new to the store. */
  ghost predicate WritesReady(writes: seq<Write>, times: seq<int>, values: seq<Fields>, maps: set<FieldMap>,
                              store: Store)
    reads store, maps
  {
    && |values| == |writes| == |times|
    && (forall i :: 0 <= i < |writes| ==>
          Unseen(writes[i], store) && MapIn(writes[i], maps) && values[i] == Contents(writes[i]))
    && (forall i, j :: 0 <= i < j < |writes| ==> SharesNoMap(writes[i], writes[j]))
  }

  class FirestoreServer {
    const store: Store
    var transactions: set<string>

    constructor (store: Store)
      ensures this.store == store && transactions == {}
    {
      this.store := store;
      transactions := {};
    }

    /** Applies one write, without touching the field maps of the writes that are still to come. */
    method ApplyWrite(w: Write, now: int, ghost rest: seq<Write>, ghost maps: set<FieldMap>)
      requires store.Valid() && Unseen(w, store) && MapIn(w, maps)
      requires forall x :: x in rest ==> Unseen(x, store) && SharesNoMap(w, x)
      modifies store.Footprint()
      ensures store.Valid()
      ensures store.feed == Run(old(store.feed), OneWrite(w, old(Contents(w)), now))
      ensures store.feed == if w.UpdateWrite? then Apply(old(store.feed), Update(w.name, old(Contents(w)), w.mask, now))
                            else if w.DeleteWrite? then Apply(old(store.feed), Delete(w.name))
                            else old(store.feed)
      ensures Announced(old(store.log.Now()), store.log.Now())
      ensures fresh(store.Footprint() - old(store.Footprint()) - maps)
      ensures forall x :: x in rest ==> Unseen(x, store) && Contents(x) == old(Contents(x))
    {
      hide Announced, Store.Valid, Apply;
      AnnouncedNothing(store.log.Now());
      OneMutation(store.feed, w, Contents(w), now);
      match w {
        case UpdateWrite(name, fields, mask) =>
          var doc := store.UpdateDocument(name, fields, mask, now);
        case DeleteWrite(name) =>
          var existed := store.DeleteDocument(name);
        case _ =>
      }
    }

    static lemma OneMutation(f: Feed, w: Write, value: Fields, now: int)
      ensures Run(f, OneWrite(w, value, now)) ==
              if w.UpdateWrite? then Apply(f, Update(w.name, value, w.mask, now))
              else if w.DeleteWrite? then Apply(f, Delete(w.name))
              else f
    {
      hide Apply;
      var ms := OneWrite(w, value, now);
      if ms != [] { assert Run(f, ms) == Run(Apply(f, ms[0]), []); }
    }

    /** Applies the writes in order, as one run of mutations, unless a transaction is named that is not
      open. `times` are the clock readings of the writes, `maps` their field maps and `values` what these
      contain. */
    method Commit(txID: string, writes: seq<Write>, times: seq<int>, ghost values: seq<Fields>,
                  ghost maps: set<FieldMap>)
      returns (r: Result<()>)
      requires store.Valid() && WritesReady(writes, times, values, maps, store)
      modifies this`transactions, store.Footprint(), maps
      ensures store.Valid()
      ensures r == if txID != "" && txID !in old(transactions) then InvalidArgument else Ok(())
      ensures transactions == if txID == "" then old(transactions) else old(transactions) - {txID}
      ensures store.feed == if r == Ok(()) then Run(old(store.feed), Mutations(writes, values, times))
                            else old(store.feed)
      ensures Announced(old(store.log.Now()), store.log.Now())
    {
      hide Announced, Store.Valid, Run, Mutations, WritesReady;
      AnnouncedNothing(store.log.Now());
      if txID != "" {
        if txID !in transactions { return InvalidArgument; }
        transactions := transactions - {txID};
      }
      ApplyWrites(writes, times, values, maps);
      r := Ok(());
    }

    method ApplyWrites(writes: seq<Write>, times: seq<int>, ghost values: seq<Fields>, ghost maps: set<FieldMap>)
      requires store.Valid() && WritesReady(writes, times, values, maps, store)
      modifies store.Footprint(), maps
      ensures store.Valid()
      ensures store.feed == Run(old(store.feed), Mutations(writes, values, times))
      ensures Announced(old(store.log.Now()), store.log.Now())
    {
      hide Announced, Store.Valid, Apply, Contents, Mutations, Run;
      AnnouncedNothing(store.log.Now());
      assert writes[0..] == writes && values[0..] == values && times[0..] == times;
      for i := 0 to |writes|
        invariant store.Valid()
        invariant fresh(store.Footprint() - old(store.Footprint()) - maps)
        invariant Announced(old(store.log.Now()), store.log.Now())
        invariant forall j :: i <= j < |writes| ==> Unseen(writes[j], store)
        invariant forall j :: i <= j < |writes| ==> values[j] == Contents(writes[j])
        invariant Run(old(store.feed), Mutations(writes, values, times)) ==
                  Run(store.feed, Mutations(writes[i..], values[i..], times[i..]))
      {
        RunStep(store.feed, writes, values, times, i);
        assert forall x :: x in writes[i + 1..] ==> Unseen(x, store) && SharesNoMap(writes[i], x);
        ghost var before := store.log.Now();
        ApplyWrite(writes[i], times[i], writes[i + 1..], maps);
        AnnouncedThen(old(store.log.Now()), before, store.log.Now());
        assert forall j :: i < j < |writes| ==> writes[j] in writes[i + 1..];
      }
      RunNone(store.feed, writes, values, times);
    }

    static lemma RunNone(f: Feed, writes: seq<Write>, values: seq<Fields>, times: seq<int>)
      requires |values| == |writes| == |times|
      ensures Run(f, Mutations(writes[|writes|..], values[|values|..], times[|times|..])) == f
    {}

    static lemma RunStep(f: Feed, writes: seq<Write>, values: seq<Fields>, times: seq<int>, i: nat)
      requires |values| == |writes| == |times| && i < |writes|
      ensures Run(f, Mutations(writes[i..], values[i..], times[i..])) ==
              Run(Run(f, OneWrite(writes[i], values[i], times[i])),
                  Mutations(writes[i + 1..], values[i + 1..], times[i + 1..]))
    {
      hide Apply;
      var rest := Mutations(writes[i + 1..], values[i + 1..], times[i + 1..]);
      assert writes[i..][1..] == writes[i + 1..] && values[i..][1..] == values[i + 1..] && times[i..][1..] == times[i + 1..];
      RunConcat(f, OneWrite(writes[i], values[i], times[i]), rest);
    }
  }
}
