/** Structured queries: collections, then WHERE, ORDER BY, OFFSET and LIMIT. */
module FirestoreQuery {
  import opened Wrappers
  import opened Text
  import opened FirestoreValues
  import opened FirestoreEvents
  import opened FirestoreFeed
  import opened FirestoreStore
  import opened FirestoreFilter
  import opened FirestoreOrder

  datatype Query = Query(from: seq<string>, filter: Option<Filter>, orderBy: seq<Order>, offset: int, limit: Option<nat>)

  // ---------- what a query computes ----------

  /** The target that covers a collection under `parent`. */
  function Collection(parent: string, collectionID: string): Target {
    Target(parent + "/" + collectionID + "/", "")
  }

  ghost function Collected(docs: Docs, parent: string, from: seq<string>): seq<Document> {
    if from == [] then []
    else
      (if from[0] == "" then [] else Listing(View(Collection(parent, from[0]), docs))) + Collected(docs, parent, from[1..])
  }

  function Window(s: seq<Document>, offset: int, limit: Option<nat>): seq<Document> {
    var t := if offset <= 0 then s else if offset >= |s| then [] else s[offset..];
    if limit.Some? && limit.value < |t| then t[..limit.value] else t
  }

  ghost function Pipeline(docs: seq<Document>, q: Query): seq<Document> {
    var kept := if q.filter.Some? then Filtered(docs, q.filter.value) else docs;
    Window(StableSort(q.orderBy, kept), q.offset, q.limit)
  }

  // ---------- the code ----------

  /** Reads the documents that a listing refers to. */
  method ReadAll(refs: seq<DocumentRef>, ghost values: seq<Document>) returns (docs: seq<Document>)
    requires AllAre(refs, values)
    ensures docs == values
  {
    docs := [];
    for i := 0 to |refs|
      invariant docs == values[..i]
    {
      var r := refs[i];
      assert Is(r, values[i]);
      docs := docs + [Document(r.name, Entries(r.fields), r.createTime, r.updateTime)];
    }
  }

  method CollectFromSources(store: Store, parent: string, from: seq<string>) returns (all: seq<Document>)
    requires store.Valid()
    ensures all == Collected(store.feed.docs, parent, from)
  {
    hide Store.Valid, Collected, View, Listing;
    all := [];
    assert from[0..] == from;
    for i := 0 to |from|
      invariant store.Valid()
      invariant Collected(store.feed.docs, parent, from) == all + Collected(store.feed.docs, parent, from[i..])
    {
      CollectedAt(store.feed.docs, parent, from, i);
      if from[i] != "" {
        var listing := store.ListDocuments(parent, from[i]);
        var docs := ReadAll(listing, Listing(View(Collection(parent, from[i]), store.feed.docs)));
        all := all + docs;
      }
    }
    CollectedNone(store.feed.docs, parent, from);
  }

  lemma CollectedAt(docs: Docs, parent: string, from: seq<string>, i: nat)
    requires i < |from|
    ensures Collected(docs, parent, from[i..]) ==
            (if from[i] == "" then [] else Listing(View(Collection(parent, from[i]), docs))) +
            Collected(docs, parent, from[i + 1..])
  {
    assert from[i..][0] == from[i] && from[i..][1..] == from[i + 1..];
  }

  lemma CollectedNone(docs: Docs, parent: string, from: seq<string>)
    ensures Collected(docs, parent, from[|from|..]) == []
  {}

  method ExecuteQuery(store: Store, parent: string, q: Query) returns (docs: seq<Document>)
    requires store.Valid()
    ensures docs == Pipeline(Collected(store.feed.docs, parent, q.from), q)
  {
    docs := CollectFromSources(store, parent, q.from);
    if q.filter.Some? {
      docs := ApplyFilter(docs, q.filter.value);
    }
    docs   := SortedCopy(docs, q.orderBy);
    if q.offset > 0 {
      if q.offset >= |docs| { docs := []; } else { docs := docs[q.offset..]; }
    }
    if q.limit.Some? && q.limit.value < |docs| {
      docs := docs[..q.limit.value];
    }
  }

  /** Sorts a copy of the slice in place, unless there is nothing to order by. */
  method SortedCopy(docs: seq<Document>, orders: seq<Order>) returns (sorted: seq<Document>)
    ensures sorted == StableSort(orders, docs)
  {
    if orders == [] {
      NothingToOrderBy(docs);
      return docs;
    }
    if docs == [] { return []; }
    var a := new Document[|docs|](i requires 0 <= i < |docs| => docs[i]);
    assert a[..] == docs;
    ApplyOrderBy(a, orders);
    sorted := a[..];
  }

  lemma {:induction false} NothingToOrderBy(docs: seq<Document>)
    ensures StableSort([], docs) == docs
  {
    if docs != [] {
      NothingToOrderBy(docs[..|docs| - 1]);
      assert docs == docs[..|docs| - 1] + [docs[|docs| - 1]];
    }
  }

  // ---------- a canonical result ----------

  ghost predicate Satisfies(q: Query, d: Document) {
    q.filter.Some? ==> Holds(q.filter.value, d)
  }

  /** `r` lists, in strictly ascending order and without repetition, the documents of `docs` that satisfy
    the query. */
  ghost predicate IsCanonical(docs: seq<Document>, q: Query, r: seq<Document>) {
    InStrictOrder(q.orderBy, r) && forall d :: d in r <==> d in docs && Satisfies(q, d)
  }

  ghost predicate InStrictOrder(orders: seq<Order>, s: seq<Document>) {
    forall i, j :: 0 <= i < j < |s| ==> ComesBefore(orders, s[i], s[j])
  }

  lemma StrictlySortedIsInStrictOrder(orders: seq<Order>, s: seq<Document>)
    ensures StrictlySorted(orders, s) <==> InStrictOrder(orders, s)
  {
    hide CompareDocs, ComesBefore;
    forall i, j | 0 <= i < j < |s| ensures CompareDocs(orders, s[i], s[j]) < 0 <==> ComesBefore(orders, s[i], s[j]) {
      CompareDocsMeans(orders, s[i], s[j]);
    }
  }

  ghost predicate StrictlySorted(orders: seq<Order>, s: seq<Document>) {
    forall i, j :: 0 <= i < j < |s| ==> CompareDocs(orders, s[i], s[j]) < 0
  }

  lemma DistinctNamesIdentify(docs: seq<Document>)
    requires DistinctNames(docs)
    ensures NamesIdentify(docs)
  {}

  lemma KeptDocuments(docs: seq<Document>, q: Query) returns (kept: seq<Document>)
    requires DistinctNames(docs)
    ensures kept == if q.filter.Some? then Filtered(docs, q.filter.value) else docs
    ensures DistinctNames(kept)
    ensures forall d :: d in kept <==> d in docs && Satisfies(q, d)
  {
    DistinctNamesIdentify(docs);
    if q.filter.Some? {
      FilteredMeansHolds(docs, q.filter.value);
      kept := Filtered(docs, q.filter.value);
    } else {
      kept := docs;
    }
  }

  /** An unpaged query that orders by name returns its canonical result, and nothing else is one. */
  lemma {:induction false} QueryIsCanonical(docs: seq<Document>, q: Query, r: seq<Document>)
    requires DistinctNames(docs) && OrdersByName(q.orderBy) && q.offset <= 0 && q.limit.None?
    ensures IsCanonical(docs, q, r) <==> r == Pipeline(docs, q)
  {
    hide Satisfies, DistinctNames, OrdersByName, CompareDocs, StrictlySorted, InStrictOrder, StableSort;
    var kept := KeptDocuments(docs, q);
    var s := StableSort(q.orderBy, kept);
    SortedDistinctIsStrict(q.orderBy, kept);
    StrictlySortedIsInStrictOrder(q.orderBy, r);
    StrictlySortedIsInStrictOrder(q.orderBy, s);
    if IsCanonical(docs, q, r) {
      StrictlySortedUnique(q.orderBy, r, s);
    }
  }

  lemma SortedDistinctIsStrict(orders: seq<Order>, kept: seq<Document>)
    requires DistinctNames(kept) && OrdersByName(orders)
    ensures StrictlySorted(orders, StableSort(orders, kept))
    ensures forall d :: d in StableSort(orders, kept) <==> d in kept
  {
    hide DistinctNames, OrdersByName, CompareDocs, StableSort, Ties;
    var s := StableSort(orders, kept);
    SortKeepsTies(orders, kept);
    assert forall d :: d in s <==> d in multiset(s);
    assert forall d :: d in kept <==> d in multiset(kept);
    forall i, j | 0 <= i < j < |s| ensures CompareDocs(orders, s[i], s[j]) < 0 {
      if CompareDocs(orders, s[i], s[j]) == 0 {
        CompareDocsAntisymmetric(orders, s[i], s[j]);
        TwoTies(orders, s[i], s, i, j);
        AtMostOneTie(orders, s[i], kept);
      }
    }
  }

  lemma TwoTies(orders: seq<Order>, d: Document, s: seq<Document>, i: nat, j: nat)
    requires i < j < |s| && CompareDocs(orders, s[i], d) == 0 && CompareDocs(orders, s[j], d) == 0
    ensures |Ties(orders, d, s)| >= 2
  {
    hide CompareValues;
    assert s == s[..i] + s[i..] && s[i..] == [s[i]] + s[i + 1..];
    assert s[i + 1..] == s[i + 1..j] + s[j..] && s[j..] == [s[j]] + s[j + 1..];
    TiesOfConcat(orders, d, s[..i], s[i..]);
    TiesOfConcat(orders, d, s[i + 1..j], s[j..]);
  }

  lemma {:induction false} StrictlySortedUnique(orders: seq<Order>, r: seq<Document>, s: seq<Document>)
    requires StrictlySorted(orders, r) && StrictlySorted(orders, s)
    requires forall d :: d in r <==> d in s
    ensures r == s
  {
    assert r != [] ==> r[0] in s;
    assert s != [] ==> s[0] in r;
    if r != [] {
      CompareDocsAntisymmetric(orders, r[0], s[0]);
      CompareDocsAntisymmetric(orders, r[0], r[0]);
      assert r[0] == s[0];
      assert forall d :: d in r <==> d == r[0] || d in r[1..];
      assert forall d :: d in s <==> d == s[0] || d in s[1..];
      forall d ensures d in r[1..] <==> d in s[1..] {
        assert d in r[1..] ==> d != r[0];
        assert d in s[1..] ==> d != s[0];
      }
      StrictlySortedUnique(orders, r[1..], s[1..]);
    }
  }

  /** Neither the order in which the documents are found, nor the way the filter is written, can be
    seen in the result of a query that orders by name, whatever page of it is asked for. */
  lemma {:induction false} CanonicalResult(docs: seq<Document>, docs': seq<Document>, q: Query, q': Query)
    requires DistinctNames(docs) && DistinctNames(docs') && forall d :: d in docs <==> d in docs'
    requires OrdersByName(q.orderBy) && q'.orderBy == q.orderBy && q'.offset == q.offset && q'.limit == q.limit
    requires forall d :: Satisfies(q, d) <==> Satisfies(q', d)
    ensures Pipeline(docs, q) == Pipeline(docs', q')
  {
    hide Satisfies, DistinctNames, OrdersByName, CompareValues;
    var kept := KeptDocuments(docs, q);
    var kept' := KeptDocuments(docs', q');
    SortIgnoresInputOrder(q.orderBy, kept, kept');
  }

  // ---------- pages ----------

  /** A query skips `offset` documents of the unpaged result and returns at most `limit` of the others. */
  lemma {:induction false} PageOfResult(docs: seq<Document>, q: Query, i: nat)
    ensures var whole := Pipeline(docs, q.(offset := 0, limit := None));
            var skipped := if q.offset <= 0 then 0 else if q.offset <= |whole| then q.offset else |whole|;
            var page := Pipeline(docs, q);
            && |page| == (if q.limit.Some? && q.limit.value < |whole| - skipped then q.limit.value else |whole| - skipped)
            && (i < |page| ==> page[i] == whole[skipped + i])
  {
    hide StableSort, Filtered;
  }

  /** The pages of `size` from the `i`-th on, one after the other. */
  function Pages(s: seq<Document>, size: nat, offset: nat): seq<Document>
    requires size > 0
    decreases |s| - offset
  {
    if |s| <= offset then [] else Window(s, offset, Some(size)) + Pages(s, size, offset + size)
  }

  lemma {:induction false} PagesFrom(s: seq<Document>, size: nat, offset: nat)
    requires size > 0 && offset <= |s|
    ensures Pages(s, size, offset) == s[offset..]
    decreases |s| - offset
  {
    if offset + size <= |s| {
      PagesFrom(s, size, offset + size);
      assert s[offset..] == s[offset..][..size] + s[offset + size..];
    }
  }

  /** The page of a query at `offset`. */
  ghost function Page(docs: seq<Document>, q: Query, size: nat, offset: nat): seq<Document> {
    Pipeline(docs, q.(offset := offset, limit := Some(size)))
  }

  ghost function AllPages(docs: seq<Document>, q: Query, size: nat, offset: nat): seq<Document>
    requires size > 0
    decreases |Pipeline(docs, q.(offset := 0, limit := None))| - offset
  {
    if |Pipeline(docs, q.(offset := 0, limit := None))| <= offset then []
    else Page(docs, q, size, offset) + AllPages(docs, q, size, offset + size)
  }

  /** Asking for one page after another, of any size, retrieves the unpaged result. */
  lemma {:induction false} PagesRebuildTheResult(docs: seq<Document>, q: Query, size: nat)
    requires size > 0
    ensures AllPages(docs, q, size, 0) == Pipeline(docs, q.(offset := 0, limit := None))
  {
    hide FieldMatches, CompareValues;
    var whole := Pipeline(docs, q.(offset := 0, limit := None));
    PagesFrom(whole, size, 0);
    PagesAreWindows(docs, q, size, 0);
  }

  lemma {:induction false} PagesAreWindows(docs: seq<Document>, q: Query, size: nat, offset: nat)
    requires size > 0
    ensures AllPages(docs, q, size, offset) == Pages(Pipeline(docs, q.(offset := 0, limit := None)), size, offset)
    decreases |Pipeline(docs, q.(offset := 0, limit := None))| - offset
  {
    hide FieldMatches, CompareValues;
    if offset < |Pipeline(docs, q.(offset := 0, limit := None))| {
      PagesAreWindows(docs, q, size, offset + size);
    }
  }

  // ---------- distinct collections yield distinct names ----------

  ghost predicate DistinctSources(from: seq<string>) {
    forall i, j :: 0 <= i < j < |from| && from[i] != "" ==> from[i] != from[j]
  }

  /** A document is the direct child of one collection only. */
  lemma OneCollection(name: string, parent: string, c: string, d: string)
    requires DirectChild(name, parent + "/" + c + "/") && DirectChild(name, parent + "/" + d + "/")
    ensures c == d
  {
    var p, q := parent + "/" + c, parent + "/" + d;
    assert parent + "/" + c + "/" == p + ['/'] && parent + "/" + d + "/" == q + ['/'];
    assert name == p + ['/'] + name[|p| + 1..];
    assert name == q + ['/'] + name[|q| + 1..];
    SplitAtLast(p, q, name[|p| + 1..], name[|q| + 1..], '/');
    assert c == p[|parent| + 1..] && d == q[|parent| + 1..];
  }

  /** A listing has every covered document once. */
  lemma ListingDistinct(docs: Docs, t: Target)
    requires KeyedByName(docs)
    ensures DistinctNames(Listing(View(t, docs)))
    ensures forall d :: d in Listing(View(t, docs)) <==> d.name in docs && docs[d.name] == d && Matches(t, d.name)
  {
    var view := View(t, docs);
    ListingOfView(view);
    hide Matches;
    assert forall d :: d in Listing(view) <==> d.name in view && view[d.name] == d;
  }

  lemma ListingOfView(view: Docs)
    requires KeyedByName(view)
    ensures DistinctNames(Listing(view))
    ensures forall d :: d in Listing(view) <==> d.name in view && view[d.name] == d
  {
    var names := Ascending(view.Keys);
    hide Ascending, Compare;
    forall i, j | 0 <= i < j < |names| ensures names[i] != names[j] {
      CompareAntisymmetric(names[i], names[j]);
    }
    assert forall i :: 0 <= i < |names| ==> Listing(view)[i] == view[names[i]] && names[i] in view;
    forall d: Document | d.name in view && view[d.name] == d ensures d in Listing(view) {
      assert d.name in names;
    }
  }

  /** A query over different collections finds each document once, so the results above apply to it. */
  lemma {:induction false} CollectedDistinct(docs: Docs, parent: string, from: seq<string>)
    requires KeyedByName(docs) && DistinctSources(from)
    ensures DistinctNames(Collected(docs, parent, from))
    ensures forall d :: d in Collected(docs, parent, from) <==>
              d.name in docs && docs[d.name] == d && InSome(parent, from, d.name)
  {
    if from != [] {
      var c, rest := from[0], Collected(docs, parent, from[1..]);
      CollectedDistinct(docs, parent, from[1..]);
      InSomeStep(parent, from);
      if c != "" {
        ListingDistinct(docs, Collection(parent, c));
        NoOverlap(docs, parent, from);
        hide Listing, View, Matches, InSome, DistinctNames;
        DistinctConcat(Listing(View(Collection(parent, c), docs)), rest);
      }
    }
  }

  lemma DistinctConcat(a: seq<Document>, b: seq<Document>)
    requires DistinctNames(a) && DistinctNames(b)
    requires forall d, e :: d in a && e in b ==> d.name != e.name
    ensures DistinctNames(a + b)
    ensures forall d :: d in a + b <==> d in a || d in b
  {
    assert forall i :: 0 <= i < |a| ==> a[i] in a;
    assert forall i :: 0 <= i < |b| ==> b[i] in b;
  }

  /** Some non-empty collection identifier of `from` covers the name. */
  ghost predicate InSome(parent: string, from: seq<string>, name: string) {
    exists c :: c in from && c != "" && Matches(Collection(parent, c), name)
  }

  lemma InSomeStep(parent: string, from: seq<string>)
    requires from != []
    ensures forall name :: InSome(parent, from, name) <==>
              (from[0] != "" && Matches(Collection(parent, from[0]), name)) || InSome(parent, from[1..], name)
  {
    hide Matches;
    assert forall b :: b in from <==> b == from[0] || b in from[1..];
  }

  lemma NoOverlap(docs: Docs, parent: string, from: seq<string>)
    requires from != [] && from[0] != "" && DistinctSources(from)
    ensures forall name :: Matches(Collection(parent, from[0]), name) ==> !InSome(parent, from[1..], name)
  {
    forall name | Matches(Collection(parent, from[0]), name) && InSome(parent, from[1..], name) ensures false {
      var b :| b in from[1..] && b != "" && Matches(Collection(parent, b), name);
      OneCollection(name, parent, from[0], b);
    }
  }

  // ---------- collections named more than once ----------

  /** How often the collection of `name` is named. */
  function Naming(parent: string, from: seq<string>, name: string): nat {
    if from == [] then 0
    else
      (if from[0] != "" && Matches(Collection(parent, from[0]), name) then 1 else 0) + Naming(parent, from[1..], name)
  }

  ghost predicate Stored(docs: Docs, d: Document) {
    d.name in docs && docs[d.name] == d
  }

  /** A document is found as often as its collection is named. */
  lemma {:induction false} CollectedCounts(docs: Docs, parent: string, from: seq<string>, d: Document)
    requires KeyedByName(docs)
    ensures multiset(Collected(docs, parent, from))[d] == if Stored(docs, d) then Naming(parent, from, d.name) else 0
  {
    hide Matches, Listing, View, KeyedByName;
    if from != [] {
      CollectedCounts(docs, parent, from[1..], d);
      if from[0] != "" {
        ListingCounts(docs, Collection(parent, from[0]), d);
      }
    }
  }

  lemma ListingCounts(docs: Docs, t: Target, d: Document)
    requires KeyedByName(docs)
    ensures multiset(Listing(View(t, docs)))[d] == if Stored(docs, d) && Matches(t, d.name) then 1 else 0
  {
    hide Matches, Listing, View;
    ListingDistinct(docs, t);
    DistinctCounts(Listing(View(t, docs)), d);
  }

  lemma {:induction false} DistinctCounts(s: seq<Document>, d: Document)
    requires DistinctNames(s)
    ensures multiset(s)[d] == if d in s then 1 else 0
  {
    if s != [] {
      assert forall i :: 0 <= i < |s| - 1 ==> s[1..][i] == s[i + 1];
      DistinctCounts(s[1..], d);
      assert s == [s[0]] + s[1..];
    }
  }

  lemma {:induction false} KeepCounts(docs: seq<Document>, f: Filter, d: Document)
    ensures multiset(Keep(docs, f))[d] == if Holds(f, d) then multiset(docs)[d] else 0
  {
    hide Holds;
    if docs != [] {
      KeepCounts(docs[1..], f, d);
      assert docs == [docs[0]] + docs[1..];
    }
  }

  /** `r` lists, in ascending order, the stored documents that satisfy the query, each as often as its
    collection is named. */
  ghost predicate IsRepeatedResult(docs: Docs, parent: string, q: Query, r: seq<Document>) {
    && OrderedBy(q.orderBy, r)
    && forall d :: multiset(r)[d] == if Stored(docs, d) && Satisfies(q, d) then Naming(parent, q.from, d.name) else 0
  }

  /** A query that orders by name and has no OR returns that, and nothing else is one: naming a collection
    more than once repeats its documents, and changes nothing else. */
  lemma {:induction false} RepeatedSources(docs: Docs, parent: string, q: Query, r: seq<Document>)
    requires KeyedByName(docs) && OrdersByName(q.orderBy) && q.offset <= 0 && q.limit.None?
    requires q.filter.Some? ==> WithoutOr(q.filter.value)
    ensures IsRepeatedResult(docs, parent, q, r) <==> r == Pipeline(Collected(docs, parent, q.from), q)
  {
    hide KeyedByName, Stored, Satisfies, OrdersByName, CompareDocs, StableSort, Filtered, Collected, Naming;
    hide FirestoreOrder.Sorted, OrderedBy;
    var s := Pipeline(Collected(docs, parent, q.from), q);
    SortedIsOrderedBy(q.orderBy, r);
    SortedIsOrderedBy(q.orderBy, s);
    PipelineCounts(docs, parent, q);
    if IsRepeatedResult(docs, parent, q, r) {
      forall d, e | d in r && e in r && d.name == e.name ensures d == e {
        StoredOnce(docs, d, e);
      }
      assert multiset(r) == multiset(s);
      SortedUnique(q.orderBy, r, s);
    }
  }

  lemma StoredOnce(docs: Docs, d: Document, e: Document)
    requires d.name == e.name && Stored(docs, d) && Stored(docs, e)
    ensures d == e
  {}

  lemma {:induction false} PipelineCounts(docs: Docs, parent: string, q: Query)
    requires KeyedByName(docs) && q.offset <= 0 && q.limit.None?
    requires q.filter.Some? ==> WithoutOr(q.filter.value)
    ensures IsRepeatedResult(docs, parent, q, Pipeline(Collected(docs, parent, q.from), q))
  {
    hide KeyedByName, Stored, CompareDocs, StableSort, Filtered, Collected, Holds, Keep, OrderedBy, Alike, Naming;
    var all := Collected(docs, parent, q.from);
    var kept := if q.filter.Some? then Filtered(all, q.filter.value) else all;
    if q.filter.Some? { WithoutOrKeepsOrder(all, q.filter.value); }
    StableSortIsStable(q.orderBy, kept);
    forall d
      ensures multiset(StableSort(q.orderBy, kept))[d] ==
              if Stored(docs, d) && Satisfies(q, d) then Naming(parent, q.from, d.name) else 0
    {
      CollectedCounts(docs, parent, q.from, d);
      if q.filter.Some? { KeepCounts(all, q.filter.value, d); }
    }
  }

  lemma {:induction false} SortedUnique(orders: seq<Order>, r: seq<Document>, s: seq<Document>)
    requires OrdersByName(orders) && Sorted(orders, r) && Sorted(orders, s) && multiset(r) == multiset(s)
    requires forall d, e :: d in r && e in r && d.name == e.name ==> d == e
    ensures r == s
  {
    hide OrdersByName, CompareDocs, FirestoreOrder.Sorted;
    assert |r| == |multiset(r)| == |multiset(s)| == |s|;
    if r != [] {
      SameFirst(orders, r, s);
      TailsSorted(orders, r, s);
      SameTails(r, s);
      SortedUnique(orders, r[1..], s[1..]);
    }
  }

  lemma TailsSorted(orders: seq<Order>, r: seq<Document>, s: seq<Document>)
    requires r != [] && s != [] && Sorted(orders, r) && Sorted(orders, s)
    ensures Sorted(orders, r[1..]) && Sorted(orders, s[1..])
  {
    hide CompareDocs;
  }

  lemma SameTails<T>(r: seq<T>, s: seq<T>)
    requires r != [] && s != [] && r[0] == s[0] && multiset(r) == multiset(s)
    ensures multiset(r[1..]) == multiset(s[1..])
  {
    assert r == [r[0]] + r[1..] && s == [s[0]] + s[1..];
    assert multiset(r[1..]) == multiset(r) - multiset{r[0]};
    assert multiset(s[1..]) == multiset(s) - multiset{s[0]};
  }

  lemma {:induction false} SameFirst(orders: seq<Order>, r: seq<Document>, s: seq<Document>)
    requires OrdersByName(orders) && Sorted(orders, r) && Sorted(orders, s) && multiset(r) == multiset(s)
    requires r != [] && s != [] && forall d, e :: d in r && e in r && d.name == e.name ==> d == e
    ensures r[0] == s[0]
  {
    hide OrdersByName, CompareDocs;
    assert r[0] in multiset(s) && s[0] in multiset(r);
    var i :| 0 <= i < |s| && s[i] == r[0];
    var j :| 0 <= j < |r| && r[j] == s[0];
    CompareDocsAntisymmetric(orders, r[0], s[0]);
    CompareDocsAntisymmetric(orders, r[0], r[0]);
    NameSeparates(orders, r[0], s[0]);
  }
}
