/** The Firestore store on the heap: documents whose field maps masked updates edit in place, and the
  copies of them that are handed out. Every method is proved to do to the heap what FirestoreFeed does
  to values. */
module FirestoreStore {
  import opened Wrappers
  import opened Text
  import opened FirestoreValues
  import opened FirestoreEvents
  import opened FirestoreFeed
  import opened FirestoreWatch
  import opened FirestoreChangeLog

  /** A Go map from field names to values: shared by everyone who holds a reference to it. */
  class FieldMap {
    var entries: Fields

    constructor (entries: Fields)
      ensures this.entries == entries
    {
      this.entries := entries;
    }
  }

  /** The contents of a field map; the nil map reads as the empty one. */
  function Entries(m: FieldMap?): Fields
    reads m
  {
    if m == null then map[] else m.entries
  }

  class StoredDocument {
    ghost const name: string
    var fields: FieldMap?
    const createTime: int
    var updateTime: int

    constructor (ghost name: string, fields: FieldMap?, now: int)
      ensures this.name == name && this.fields == fields && createTime == now && updateTime == now
    {
      this.name := name;
      this.fields := fields;
      this.createTime := now;
      this.updateTime := now;
    }
  }

  /** A `firestorepb.Document`, which refers to a field map. */
  datatype DocumentRef = DocumentRef(name: string, fields: FieldMap?, createTime: int, updateTime: int)

  type HeapEvent = Event<DocumentRef>

  // ---------- documents on the heap ----------

  ghost predicate DocIs(sd: StoredDocument, owner: map<FieldMap, string>, name: string, d: Document)
    reads sd, owner.Keys
  {
    && sd.name == name
    && (sd.fields != null ==> sd.fields in owner && owner[sd.fields] == name)
    && d == Document(name, Entries(sd.fields), sd.createTime, sd.updateTime)
  }

  /** The heap documents `docs` are the documents `d`, each with a field map of its own. */
  ghost predicate DocsAre(docs: map<string, StoredDocument>, owner: map<FieldMap, string>, d: Docs)
    reads docs.Values, owner.Keys
  {
    docs.Keys == d.Keys && forall name :: name in docs ==> DocIs(docs[name], owner, name, d[name])
  }

  lemma DocsUnderOwner(docs: map<string, StoredDocument>, owner: map<FieldMap, string>, owner': map<FieldMap, string>,
                       d: Docs)
    requires DocsAre(docs, owner, d)
    requires forall m :: m in owner ==> m in owner' && owner'[m] == owner[m]
    ensures DocsAre(docs, owner', d)
  {
    forall n | n in docs ensures DocIs(docs[n], owner', n, d[n]) {
      assert DocIs(docs[n], owner, n, d[n]);
    }
  }

  lemma DocsAreWith(docs: map<string, StoredDocument>, owner: map<FieldMap, string>, d: Docs, name: string,
                    sd: StoredDocument)
    requires DocsAre(docs, owner, d)
    requires sd.name == name && (sd.fields != null ==> sd.fields in owner && owner[sd.fields] == name)
    ensures DocsAre(docs[name := sd], owner, d[name := Document(name, Entries(sd.fields), sd.createTime, sd.updateTime)])
  {
    assert forall n :: n in docs ==> DocIs(docs[n], owner, n, d[n]);
    assert DocIs(sd, owner, name, Document(name, Entries(sd.fields), sd.createTime, sd.updateTime));
    hide DocIs;
  }

  ghost predicate Is(d: DocumentRef, v: Document)
    reads d.fields
  {
    v == Document(d.name, Entries(d.fields), d.createTime, d.updateTime)
  }

  ghost predicate AllAre(ds: seq<DocumentRef>, vs: seq<Document>)
    reads set d | d in ds :: d.fields
  {
    |ds| == |vs| && forall i :: 0 <= i < |ds| ==> Is(ds[i], vs[i])
  }

  // ---------- what was handed out ----------

  /** The contents that each field map handed out had when it was handed out. */
  type Record = map<FieldMap, Fields>

  /** No map handed out is one the store edits, and each still has the contents it had then. */
  ghost predicate Isolated(owner: map<FieldMap, string>, recorded: Record)
    reads recorded.Keys
  {
    owner.Keys !! recorded.Keys && forall m :: m in recorded ==> m.entries == recorded[m]
  }

  ghost predicate RefersTo(r: Record, d: DocumentRef, v: Document) {
    && (d.fields != null ==> d.fields in r)
    && v == Document(d.name, if d.fields == null then map[] else r[d.fields], d.createTime, d.updateTime)
  }

  ghost predicate Denotes(r: Record, e: HeapEvent, v: DocEvent) {
    && e.name == v.name && e.kind == v.kind && e.seqNo == v.seqNo
    && (e.doc.Some? <==> v.doc.Some?)
    && (e.doc.Some? ==> RefersTo(r, e.doc.value, v.doc.value))
  }

  ghost predicate DenoteAll(r: Record, es: seq<HeapEvent>, vs: seq<DocEvent>) {
    |es| == |vs| && forall i :: 0 <= i < |es| ==> Denotes(r, es[i], vs[i])
  }

  /** `s` records everything `r` does. */
  ghost predicate Extends(r: Record, s: Record) {
    forall m :: m in r ==> m in s && s[m] == r[m]
  }

  ghost predicate AllReferTo(r: Record, ds: seq<DocumentRef>, vs: seq<Document>) {
    |ds| == |vs| && forall i :: 0 <= i < |ds| ==> RefersTo(r, ds[i], vs[i])
  }

  lemma AllReferToExtends(r: Record, s: Record, ds: seq<DocumentRef>, vs: seq<Document>)
    requires AllReferTo(r, ds, vs) && Extends(r, s)
    ensures AllReferTo(s, ds, vs)
  {
    forall i | 0 <= i < |ds| ensures RefersTo(s, ds[i], vs[i]) {
      assert RefersTo(r, ds[i], vs[i]);
    }
  }

  lemma DenoteAllExtends(r: Record, s: Record, es: seq<HeapEvent>, vs: seq<DocEvent>)
    requires DenoteAll(r, es, vs) && Extends(r, s)
    ensures DenoteAll(s, es, vs)
  {
    forall i | 0 <= i < |es| ensures Denotes(s, es[i], vs[i]) {
      assert Denotes(r, es[i], vs[i]);
    }
  }

  /** Selecting events by target or token picks the same events on the heap and in the value feed. */
  lemma {:induction false} MatchingDenotes(r: Record, t: Target, es: seq<HeapEvent>, vs: seq<DocEvent>)
    requires DenoteAll(r, es, vs)
    ensures DenoteAll(r, Matching(t, es), Matching(t, vs))
  {
    if es != [] {
      assert Denotes(r, es[0], vs[0]);
      assert DenoteAll(r, es[1..], vs[1..]);
      MatchingDenotes(r, t, es[1..], vs[1..]);
    }
  }

  lemma {:induction false} AfterDenotes(r: Record, token: nat, es: seq<HeapEvent>, vs: seq<DocEvent>)
    requires DenoteAll(r, es, vs)
    ensures DenoteAll(r, After(es, token), After(vs, token))
  {
    if es != [] {
      assert Denotes(r, es[0], vs[0]);
      assert DenoteAll(r, es[1..], vs[1..]);
      AfterDenotes(r, token, es[1..], vs[1..]);
    }
  }

  lemma {:induction false} ChosenDenotes(r: Record, es: seq<HeapEvent>, vs: seq<DocEvent>, kept: seq<bool>)
    requires DenoteAll(r, es, vs) && |kept| == |es|
    ensures DenoteAll(r, Chosen(es, kept), Chosen(vs, kept))
    decreases es
  {
    hide Denotes;
    if es != [] {
      var n := |es| - 1;
      assert DenoteAll(r, es[..n], vs[..n]);
      ChosenDenotes(r, es[..n], vs[..n], kept[..n]);
      DenoteAllAppend(r, Chosen(es[..n], kept[..n]), Chosen(vs[..n], kept[..n]), es[n], vs[n]);
      assert forall s: seq<HeapEvent> :: s + [] == s;
      assert forall s: seq<DocEvent> :: s + [] == s;
    }
  }

  lemma DenoteAllAppend(r: Record, es: seq<HeapEvent>, vs: seq<DocEvent>, e: HeapEvent, v: DocEvent)
    requires DenoteAll(r, es, vs) && Denotes(r, e, v)
    ensures DenoteAll(r, es + [e], vs + [v])
  {
    hide Denotes;
  }

  lemma {:induction false} ChangesSinceDenotes(r: Record, n: nat, token: nat, t: Target, es: seq<HeapEvent>, vs: seq<DocEvent>)
    requires DenoteAll(r, es, vs) && n > 0
    ensures var heap, value := ChangesSince(Retained(es, n), token, t), ChangesSince(Retained(vs, n), token, t);
            (heap.Some? <==> value.Some?) && (heap.Some? ==> DenoteAll(r, heap.value, value.value))
  {
    var es', vs' := Retained(es, n), Retained(vs, n);
    assert DenoteAll(r, es', vs');
    if es' != [] { assert Denotes(r, es'[0], vs'[0]); }
    AfterDenotes(r, token, es', vs');
    MatchingDenotes(r, t, After(es', token), After(vs', token));
  }

  // ---------- the store ----------

  class Store {
    var docs: map<string, StoredDocument>
    const log: ChangeLog<DocumentRef>

    ghost var feed: Feed
    /** The field maps the store edits in place, each with the document it belongs to. */
    ghost var owner: map<FieldMap, string>
    /** Every field map ever handed out. */
    ghost var recorded: Record

    ghost function Footprint(): set<object>
      reads this
    {
      {this, log, log.changeLog} + docs.Values + owner.Keys
    }

    /** The log on the heap is the history of the feed. */
    ghost predicate LogIs(history: seq<DocEvent>)
      reads this`recorded, log, log.changeLog
    {
      log.Valid() && DenoteAll(recorded, log.history, history)
    }

    ghost predicate Valid()
      reads this, log, log.changeLog, docs.Values, owner.Keys, recorded.Keys
    {
      && LogIs(feed.history)
      && Consistent(feed)
      && Isolated(owner, recorded)
      && DocsAre(docs, owner, feed.docs)
    }

    /** A store without persistence. */
    constructor (capacity: nat)
      requires capacity > 0
      ensures Valid() && fresh(Footprint())
      ensures feed == Start(map[]) && recorded == map[] && owner == map[] && log.Now() == Watching([], map[], map[])
    {
      docs := map[];
      log := new ChangeLog(capacity);
      feed := Start(map[]);
      owner := map[];
      recorded := map[];
      new;
      hide Store.Footprint;
      assert docs.Values == {};
    }

    // ----- reading -----

    method CopyFields(src: FieldMap?) returns (dst: FieldMap?)
      ensures dst == null <==> src == null
      ensures dst != null ==> fresh(dst) && dst.entries == src.entries
    {
      if src == null { return null; }
      dst := new FieldMap(map[]);
      var todo := src.entries.Keys;
      while todo != {}
        invariant todo <= src.entries.Keys
        invariant dst.entries == src.entries - todo
        decreases |todo|
      {
        var k :| k in todo;
        dst.entries := dst.entries[k := src.entries[k]];
        todo := todo - {k};
      }
      assert src.entries - {} == src.entries;
    }

    /** A copy of a document, whose field map is new and recorded as handed out. */
    method GetDocLocked(name: string, ghost history: seq<DocEvent>, ghost d: Docs) returns (doc: Option<DocumentRef>)
      requires LogIs(history) && Isolated(owner, recorded) && DocsAre(docs, owner, d)
      modifies this`recorded
      ensures LogIs(history) && Isolated(owner, recorded) && DocsAre(docs, owner, d)
      ensures Extends(old(recorded), recorded) && (forall m :: m in recorded && m !in old(recorded) ==> fresh(m))
      ensures doc.Some? <==> name in d
      ensures doc.Some? ==> RefersTo(recorded, doc.value, d[name])
    {
      if name !in docs { return None; }
      assert DocIs(docs[name], owner, name, d[name]);
      var sd := docs[name];
      var copy := CopyFields(sd.fields);
      doc := Some(DocumentRef(name, copy, sd.createTime, sd.updateTime));
      if copy != null {
        DenoteAllExtends(recorded, recorded[copy := copy.entries], log.history, history);
        recorded := recorded[copy := copy.entries];
      }
    }

    method GetDocument(name: string) returns (doc: Option<DocumentRef>)
      requires Valid()
      modifies this`recorded
      ensures Valid() && Extends(old(recorded), recorded)
      ensures doc.Some? <==> name in feed.docs
      ensures doc.Some? ==> RefersTo(recorded, doc.value, feed.docs[name])
    {
      doc := GetDocLocked(name, feed.history, feed.docs);
    }

    // ----- mutations -----

    /** Creates a document that keeps the caller's field map, which the caller must not share. */
    method CreateDocument(name: string, fields: FieldMap?, now: int) returns (doc: Option<DocumentRef>)
      requires Valid()
      requires fields != null ==> fields !in owner && fields !in recorded
      modifies Footprint()
      ensures Valid() && Extends(old(recorded), recorded) && (forall m :: m in recorded && m !in old(recorded) ==> fresh(m))
      ensures feed == Apply(old(feed), Create(name, old(Entries(fields)), now))
      ensures Announced(old(log.Now()), log.Now())
      ensures doc.Some? <==> name !in old(feed.docs)
      ensures doc.Some? ==> RefersTo(recorded, doc.value, feed.docs[name])
      ensures fresh(Footprint() - old(Footprint()) - {fields})
    {
      hide Announced;
      AnnouncedNothing(log.Now());
      if name in docs { return None; }
      doc := Insert(name, fields, now);
    }

    /** Adds a document under a free name, and announces it. */
    method Insert(name: string, fields: FieldMap?, now: int) returns (doc: Option<DocumentRef>)
      requires Valid() && name !in docs
      requires fields != null ==> fields !in owner && fields !in recorded
      modifies Footprint()
      ensures Valid() && Extends(old(recorded), recorded) && (forall m :: m in recorded && m !in old(recorded) ==> fresh(m))
      ensures feed == Emit(old(feed), name, Added, Some(Document(name, old(Entries(fields)), now, now)))
      ensures Announced(old(log.Now()), log.Now())
      ensures doc.Some? && RefersTo(recorded, doc.value, feed.docs[name])
      ensures fresh(Footprint() - old(Footprint()) - {fields})
    {
      hide Announced, Store.LogIs, Consistent, Isolated, RefersTo, DocsAre, Extends;
      ghost var value := Document(name, Entries(fields), now, now);
      Place(name, fields, now);
      ValuesOfUpdate(old(docs), name, docs[name]);
      doc := Conclude(name, Added, value);
    }

    method Place(name: string, fields: FieldMap?, now: int)
      requires DocsAre(docs, owner, feed.docs) && Isolated(owner, recorded) && name !in docs
      requires fields != null ==> fields !in owner && fields !in recorded
      modifies this`docs, this`owner
      ensures name in docs && fresh(docs[name]) && docs == old(docs)[name := docs[name]]
      ensures owner.Keys <= old(owner.Keys) + {fields}
      ensures Isolated(owner, recorded)
      ensures DocsAre(docs, owner, feed.docs[name := Document(name, Entries(fields), now, now)])
    {
      hide Entries, DocsAre, Isolated;
      ghost var wider := if fields != null then owner[fields := name] else owner;
      OwnsAlso(fields, name);
      DocsUnderOwner(docs, owner, wider, feed.docs);
      var sd := new StoredDocument(name, fields, now);
      DocsAreWith(docs, wider, feed.docs, name, sd);
      docs := docs[name := sd];
      owner := wider;
    }

    lemma {:induction false} OwnsAlso(fields: FieldMap?, name: string)
      requires Isolated(owner, recorded) && (fields != null ==> fields !in owner && fields !in recorded)
      ensures var wider := if fields != null then owner[fields := name] else owner;
              && Isolated(wider, recorded) && wider.Keys <= owner.Keys + {fields}
              && forall m :: m in owner ==> m in wider && wider[m] == owner[m]
    {}

    /** Copies the document that was just written, and announces it. */
    method Conclude(name: string, kind: ChangeType, ghost value: Document) returns (doc: Option<DocumentRef>)
      requires LogIs(feed.history) && Consistent(feed) && Isolated(owner, recorded)
      requires DocsAre(docs, owner, feed.docs[name := value])
      requires kind != Removed && value.name == name
      modifies this`recorded, this`feed, log, log.changeLog
      ensures Valid() && Extends(old(recorded), recorded) && (forall m :: m in recorded && m !in old(recorded) ==> fresh(m))
      ensures feed == Emit(old(feed), name, kind, Some(value))
      ensures doc.Some? && name in feed.docs && RefersTo(recorded, doc.value, feed.docs[name])
      ensures Announced(old(log.Now()), log.Now())
    {
      hide Announced;
      doc := GetDocLocked(name, feed.history, feed.docs[name := value]);
      Announce(name, kind, doc, Some(value));
    }

    /** Ends a mutation that has brought the heap documents to where the event leads. */
    method Announce(name: string, kind: ChangeType, doc: Option<DocumentRef>, ghost value: Option<Document>)
      requires LogIs(feed.history) && Consistent(feed) && Isolated(owner, recorded)
      requires DocsAre(docs, owner, Emit(feed, name, kind, value).docs)
      requires kind == Removed <==> value.None?
      requires doc.Some? <==> value.Some?
      requires doc.Some? ==> value.value.name == name && RefersTo(recorded, doc.value, value.value)
      modifies this`feed, log, log.changeLog
      ensures Valid()
      ensures feed == Emit(old(feed), name, kind, value)
      ensures Announced(old(log.Now()), log.Now())
    {
      hide Announced, Store.LogIs, Consistent, Isolated, RefersTo, DocsAre;
      EmitConsistent(feed, name, kind, value);
      Notify(name, kind, doc, value, feed.history);
      feed := Emit(feed, name, kind, value);
    }

    method Notify(name: string, kind: ChangeType, doc: Option<DocumentRef>, ghost value: Option<Document>,
                  ghost history: seq<DocEvent>)
      requires LogIs(history)
      requires doc.Some? <==> value.Some?
      requires doc.Some? ==> RefersTo(recorded, doc.value, value.value)
      modifies log, log.changeLog
      ensures LogIs(history + [Event(name, kind, value, (|history| + 1) % TWO64)])
      ensures Announced(old(log.Now()), log.Now())
    {
      hide Announced, NotifiedAll, OfferAll, OfferAllLogs, WatchersOk, Numbered, RingHolds, DenoteAll, Denotes, RefersTo;
      ghost var r := recorded;
      ghost var e := Event(name, kind, doc, (|log.history| + 1) % TWO64);
      ghost var v := Event(name, kind, value, (|history| + 1) % TWO64);
      AnnouncedOne(log.Now(), e);
      OneDenotes(r, log.history, history, e, v);
      log.NotifyWatchers(name, kind, doc);
    }

    lemma OneDenotes(r: Record, es: seq<HeapEvent>, vs: seq<DocEvent>, e: HeapEvent, v: DocEvent)
      requires DenoteAll(r, es, vs) && e.name == v.name && e.kind == v.kind && e.doc.Some? == v.doc.Some?
      requires e.seqNo == (|es| + 1) % TWO64 && v.seqNo == (|vs| + 1) % TWO64
      requires e.doc.Some? ==> RefersTo(r, e.doc.value, v.doc.value)
      ensures |es| == |vs| && DenoteAll(r, es + [e], vs + [v])
    {}

    /** Updates the listed fields in place, or all fields if none are listed, or inserts the document if
      it does not exist. Only a full replacement or an insertion keeps the caller's map. */
    method UpdateDocument(name: string, fields: FieldMap?, mask: seq<string>, now: int) returns (doc: DocumentRef)
      requires Valid()
      requires fields != null ==> fields !in owner && fields !in recorded
      modifies Footprint()
      ensures Valid() && Extends(old(recorded), recorded) && (forall m :: m in recorded && m !in old(recorded) ==> fresh(m))
      ensures feed == Apply(old(feed), Update(name, old(Entries(fields)), mask, now))
      ensures LeftByUpdate(old(Get(feed.docs, name)), feed.docs[name], name, old(Entries(fields)), mask, now)
      ensures Announced(old(log.Now()), log.Now())
      ensures RefersTo(recorded, doc, feed.docs[name])
      ensures fresh(Footprint() - old(Footprint()) - {fields})
    {
      hide Announced, LeftByUpdate;
      UpdateMeans(feed, name, Entries(fields), mask, now);
      var d: Option<DocumentRef>;
      if name !in docs {
        d := Insert(name, fields, now);
      } else {
        d := Revise(name, fields, mask, now);
      }
      doc := d.value;
    }

    /** Updates an existing document, and announces it. */
    method Revise(name: string, fields: FieldMap?, mask: seq<string>, now: int) returns (doc: Option<DocumentRef>)
      requires Valid() && name in docs
      requires fields != null ==> fields !in owner && fields !in recorded
      modifies Footprint()
      ensures Valid() && Extends(old(recorded), recorded) && (forall m :: m in recorded && m !in old(recorded) ==> fresh(m))
      ensures feed == Emit(old(feed), name, Modified,
                           Some(Updated(old(feed.docs[name]), old(Entries(fields)), mask, now)))
      ensures Announced(old(log.Now()), log.Now())
      ensures doc.Some? && RefersTo(recorded, doc.value, feed.docs[name])
      ensures fresh(Footprint() - old(Footprint()) - {fields})
    {
      hide Announced, Store.LogIs, Consistent, Isolated, RefersTo, DocsAre, Updated, Entries, Extends, Emit;
      NameStays(name, Entries(fields), mask, now);
      ghost var value := Updated(feed.docs[name], Entries(fields), mask, now);
      EditOne(name, fields, mask, now);
      doc := Conclude(name, Modified, value);
    }

    lemma NameStays(name: string, fields: Fields, mask: seq<string>, now: int)
      requires DocsAre(docs, owner, feed.docs) && name in docs
      ensures name in feed.docs && Updated(feed.docs[name], fields, mask, now).name == name
    {
      assert DocIs(docs[name], owner, name, feed.docs[name]);
    }

    /** Edits one document, and no other: the others have field maps of their own. */
    method EditOne(name: string, fields: FieldMap?, mask: seq<string>, now: int)
      requires DocsAre(docs, owner, feed.docs) && Isolated(owner, recorded) && name in docs
      requires fields != null ==> fields !in owner && fields !in recorded
      modifies this`owner, docs.Values, owner.Keys
      ensures Isolated(owner, recorded)
      ensures DocsAre(docs, owner, feed.docs[name := Updated(feed.docs[name], old(Entries(fields)), mask, now)])
      ensures fresh(owner.Keys - old(owner.Keys) - {fields})
    {
      assert forall n :: n in docs ==> DocIs(docs[n], owner, n, feed.docs[n]);
      Edit(docs[name], name, feed.docs[name], fields, mask, now);
      forall n | n in docs && n != name ensures DocIs(docs[n], owner, n, feed.docs[n]) {
        assert old(DocIs(docs[n], owner, n, feed.docs[n]));
      }
    }

    method Edit(sd: StoredDocument, name: string, ghost d: Document, fields: FieldMap?, mask: seq<string>, now: int)
      requires DocIs(sd, owner, name, d)
      requires fields != null ==> fields !in owner
      modifies this`owner, sd, sd.fields
      ensures DocIs(sd, owner, name, Updated(d, old(Entries(fields)), mask, now))
      ensures forall m :: m in old(owner) ==> m in owner && owner[m] == old(owner)[m]
      ensures fresh(owner.Keys - old(owner.Keys) - {fields})
    {
      if mask == [] {
        sd.fields := fields;
        if fields != null { owner := owner[fields := name]; }
      } else {
        if sd.fields == null {
          sd.fields := new FieldMap(map[]);
          owner := owner[sd.fields := name];
        }
        ApplyMaskInPlace(sd.fields, fields, mask);
      }
      sd.updateTime := now;
    }

    method ApplyMaskInPlace(m: FieldMap, fields: FieldMap?, mask: seq<string>)
      requires fields != m
      modifies m
      ensures m.entries == ApplyMask(old(m.entries), old(Entries(fields)), mask)
      ensures Masked(old(m.entries), old(Entries(fields)), mask, m.entries)
    {
      ApplyMaskMasks(m.entries, Entries(fields), mask);
      hide Masked;
      ghost var before, input := m.entries, Entries(fields);
      for i := 0 to |mask|
        invariant Entries(fields) == input
        invariant ApplyMask(before, input, mask) == ApplyMask(m.entries, input, mask[i..])
      {
        assert mask[i..][0] == mask[i] && mask[i..][1..] == mask[i + 1..];
        var f := mask[i];
        if fields != null && f in fields.entries {
          m.entries := m.entries[f := fields.entries[f]];
        } else {
          m.entries := m.entries - {f};
        }
      }
    }

    method DeleteDocument(name: string) returns (existed: bool)
      requires Valid()
      modifies Footprint()
      ensures Valid() && recorded == old(recorded)
      ensures feed == Apply(old(feed), Delete(name))
      ensures Announced(old(log.Now()), log.Now())
      ensures existed <==> name in old(feed.docs)
      ensures fresh(Footprint() - old(Footprint()))
    {
      hide Announced, Store.LogIs, Consistent, Isolated, RefersTo, DocIs;
      AnnouncedNothing(log.Now());
      if name !in docs { return false; }
      Drop(name);
      Announce(name, Removed, None, None);
      existed := true;
    }

    method Drop(name: string)
      requires DocsAre(docs, owner, feed.docs)
      modifies this`docs
      ensures DocsAre(docs, owner, feed.docs - {name})
      ensures Footprint() <= old(Footprint())
    {
      ghost var before := docs;
      docs := docs - {name};
      forall n | n in docs ensures DocIs(docs[n], owner, n, feed.docs[n]) {
        assert DocIs(before[n], owner, n, feed.docs[n]);
      }
    }

    // ----- the change log -----

    method AddWatcher(id: int, target: Target)
      requires Valid()
      modifies log`watchers, log`logs
      ensures Valid()
      ensures log.Now() == Registered(old(log.Now()), id, target) && |log.history| == |feed.history|
    {
      log.AddWatcher(id, target);
    }

    method RemoveWatcher(id: int)
      requires Valid()
      modifies log`watchers, log`logs
      ensures Valid()
      ensures log.Now() == Unregistered(old(log.Now()), id)
    {
      log.RemoveWatcher(id);
    }

    /** The consumer of a watcher takes its oldest event. */
    method TakeEvent(id: int) returns (e: Option<HeapEvent>)
      requires Valid() && id in log.watchers
      modifies log`watchers, log`logs
      ensures Valid()
      ensures e == if old(log.watchers[id].ch) == [] then None else Some(old(log.watchers[id].ch)[0])
      ensures log.Now() == Consumed(old(log.Now()), id)
    {
      e := log.TakeEvent(id);
    }

    method ChangesSince(token: nat, target: Target)
      returns (changes: Option<seq<HeapEvent>>, ghost values: Option<seq<DocEvent>>)
      requires Valid() && token < TWO64
      ensures values == FirestoreEvents.ChangesSince(Retained(feed.history, log.changeLog.Length), token, target)
      ensures changes.Some? <==> values.Some?
      ensures changes.Some? ==> DenoteAll(recorded, changes.value, values.value)
    {
      changes := log.ChangesSince(token, target);
      values := FirestoreEvents.ChangesSince(Retained(feed.history, log.changeLog.Length), token, target);
      ChangesSinceDenotes(recorded, log.changeLog.Length, token, target, log.history, feed.history);
    }

    /** What a consumer was sent are, in order, the events of the feed since its registration that concern it
      and that its channel had room for. */
    lemma {:induction false} StreamIsWhatFitted(id: int)
      requires Valid() && id in log.watchers
      ensures id in log.logs && log.logs[id].since <= |feed.history|
      ensures var owed := Matching(log.watchers[id].target, feed.history[log.logs[id].since..]);
              && |log.logs[id].kept| == |owed|
              && DenoteAll(recorded, Received(log.Now(), id), Chosen(owed, log.logs[id].kept))
    {
      var r, t := log.logs[id].since, log.watchers[id].target;
      assert WatcherOk(log.watchers[id], log.logs[id], log.history);
      assert DenoteAll(recorded, log.history[r..], feed.history[r..]);
      MatchingDenotes(recorded, t, log.history[r..], feed.history[r..]);
      ChosenDenotes(recorded, Matching(t, log.history[r..]), Matching(t, feed.history[r..]), log.logs[id].kept);
    }

    lemma FeedExplainsDocs()
      requires Valid()
      ensures DocsAt(feed, |feed.history|) == feed.docs
    {
      assert feed.history[..|feed.history|] == feed.history;
    }

    /** A client that holds the view as of `s`, a moment since its watcher was registered, and then applies
      everything that the watcher was sent, holds the present view if nothing was dropped. */
    lemma {:induction false} LiveStreamConverges(id: int, s: nat, base: Docs) returns (events: seq<DocEvent>)
      requires Valid() && id in log.watchers && id in log.logs && Lossless(log.logs[id])
      requires log.logs[id].since <= s <= |feed.history|
      requires base == View(log.watchers[id].target, DocsAt(feed, s))
      ensures DenoteAll(recorded, Received(log.Now(), id), events)
      ensures Replay(base, events) == View(log.watchers[id].target, feed.docs)
    {
      hide Store.LogIs, Consistent, Isolated, DocsAre, DenoteAll, Matching, Matches, View, Received;
      var r, t := log.logs[id].since, log.watchers[id].target;
      StreamIsWhatFitted(id);
      FeedExplainsDocs();
      events := Matching(t, feed.history[r..]);
      assert feed.history[r..|feed.history|] == feed.history[r..];
      WatchBeforeSnapshot(feed, r, s, |feed.history|, t);
    }

    // ----- listing -----

    /** Copies of the documents a target covers, by ascending name. */
    method SnapshotDocuments(t: Target) returns (snapshot: seq<DocumentRef>)
      requires Valid() && (t.docName != "" || t.prefix != "")
      modifies this`recorded
      ensures Valid() && Extends(old(recorded), recorded)
      ensures AllReferTo(recorded, snapshot, Listing(View(t, feed.docs)))
    {
      hide Store.Valid, Store.LogIs, Consistent, Isolated, RefersTo, DocsAre, Listing, View, InOrder, Ascending, Extends;
      hide AllReferTo;
      SameNames();
      var names := NamesCovered(t);
      ListingOfCovered(t, names);
      snapshot := CopyDocuments(names);
    }

    lemma SameNames()
      requires Valid()
      ensures docs.Keys == feed.docs.Keys
    {}

    lemma ListingOfCovered(t: Target, names: seq<string>)
      requires names == Ascending(View(t, feed.docs).Keys)
      ensures forall name :: name in names ==> name in feed.docs
      ensures Listing(View(t, feed.docs)) == InOrder(feed.docs, names)
    {
      hide Matches, Ascending;
      var v := View(t, feed.docs);
      assert forall name :: name in names ==> name in v;
      assert |Listing(v)| == |InOrder(feed.docs, names)| == |names|;
      forall i | 0 <= i < |names| ensures Listing(v)[i] == InOrder(feed.docs, names)[i] {
        assert names[i] in names;
      }
    }

    method NamesCovered(t: Target) returns (names: seq<string>)
      requires docs.Keys == feed.docs.Keys && (t.docName != "" || t.prefix != "")
      ensures names == Ascending(View(t, feed.docs).Keys)
    {
      ghost var covered := View(t, feed.docs).Keys;
      if t.docName != "" {
        names := if t.docName in docs then [t.docName] else [];
        assert covered == if t.docName in docs then {t.docName} else {};
        AscendingUnique(names, Ascending(covered));
      } else {
        var found := NamesUnder(t.prefix);
        assert found == covered;
        names := SortStrings(found);
      }
    }

    method NamesUnder(prefix: string) returns (names: set<string>)
      ensures names == set n | n in docs && DirectChild(n, prefix)
    {
      names := {};
      var todo := docs.Keys;
      while todo != {}
        invariant todo <= docs.Keys
        invariant names == set n | n in docs.Keys - todo && DirectChild(n, prefix)
        decreases |todo|
      {
        var name :| name in todo;
        if DirectChild(name, prefix) { names := names + {name}; }
        todo := todo - {name};
      }
    }

    method CopyDocuments(names: seq<string>) returns (copies: seq<DocumentRef>)
      requires Valid() && forall name :: name in names ==> name in feed.docs
      modifies this`recorded
      ensures Valid() && Extends(old(recorded), recorded)
      ensures AllReferTo(recorded, copies, InOrder(feed.docs, names))
    {
      hide Store.LogIs, Consistent, Isolated, RefersTo, DocsAre;
      ghost var values := InOrder(feed.docs, names);
      copies := [];
      for i := 0 to |names|
        invariant Valid() && Extends(old(recorded), recorded)
        invariant AllReferTo(recorded, copies, values[..i])
      {
        ghost var before := recorded;
        var doc := GetDocument(names[i]);
        AllReferToExtends(before, recorded, copies, values[..i]);
        copies := copies + [doc.value];
      }
    }

    /** The direct children of a collection, by ascending name. These documents are not copies: they refer
      to the field maps of the store. */
    method ListDocuments(parent: string, collectionID: string) returns (listing: seq<DocumentRef>)
      requires Valid()
      ensures AllAre(listing, Listing(View(Target(parent + "/" + collectionID + "/", ""), feed.docs)))
    {
      hide Store.LogIs, Consistent, Isolated, RefersTo, DocIs;
      var prefix := parent + "/" + collectionID + "/";
      ghost var view := View(Target(prefix, ""), feed.docs);
      var found := ReferencesUnder(prefix);
      assert found.Keys == view.Keys;
      var sorted := SortStrings(found.Keys);
      listing := Gather(found, view, sorted);
    }

    static method Gather(found: map<string, DocumentRef>, ghost view: Docs, names: seq<string>)
      returns (listing: seq<DocumentRef>)
      requires forall n :: n in names ==> n in found && n in view && Is(found[n], view[n])
      ensures AllAre(listing, InOrder(view, names))
    {
      listing := [];
      for i := 0 to |names|
        invariant AllAre(listing, InOrder(view, names[..i]))
      {
        listing := listing + [found[names[i]]];
      }
      assert names[..|names|] == names;
    }

    method ReferencesUnder(prefix: string) returns (found: map<string, DocumentRef>)
      requires DocsAre(docs, owner, feed.docs)
      ensures found.Keys == set n | n in docs && DirectChild(n, prefix)
      ensures forall n :: n in found ==> Is(found[n], feed.docs[n])
    {
      found := map[];
      var todo := docs.Keys;
      while todo != {}
        invariant todo <= docs.Keys
        invariant found.Keys == set n | n in docs.Keys - todo && DirectChild(n, prefix)
        invariant forall n :: n in found ==> Is(found[n], feed.docs[n])
        decreases |todo|
      {
        var name :| name in todo;
        var sd := docs[name];
        assert DocIs(sd, owner, name, feed.docs[name]);
        if HasPrefix(name, prefix) && '/' !in name[|prefix|..] {
          found := found[name := DocumentRef(name, sd.fields, sd.createTime, sd.updateTime)];
        }
        todo := todo - {name};
      }
    }
  }

  lemma ValuesOfUpdate<K, V>(m: map<K, V>, k: K, v: V)
    ensures m[k := v].Values <= m.Values + {v}
  {}
}
