/** ORDER BY: the multi-key comparator and the in-place stable sort. */
module FirestoreOrder {
  import opened Wrappers
  import opened Text
  import opened Binary64
  import opened FirestoreValues
  import opened FirestoreFilter

  datatype Order = Order(path: string, descending: bool)

  const NAME: string := "__name__"

  /** The value a document is ordered by. */
  function Key(d: Document, o: Order): Option<Value> {
    if o.path == NAME then Some(Str(d.name)) else Lookup(d.fields, Split(o.path))
  }

  ghost predicate KeysTie(o: Order, a: Document, b: Document) {
    Tied(Key(a, o), Key(b, o))
  }

  ghost predicate KeyBefore(o: Order, a: Document, b: Document) {
    if o.descending then Below(Key(b, o), Key(a, o)) else Below(Key(a, o), Key(b, o))
  }

  ghost predicate AllTie(orders: seq<Order>, a: Document, b: Document) {
    forall k :: 0 <= k < |orders| ==> KeysTie(orders[k], a, b)
  }

  /** Key `k` is the first that tells the documents apart, and puts `a` before `b`: below it in an ascending
    order, above it in a descending one. */
  ghost predicate DecidesFor(orders: seq<Order>, a: Document, b: Document, k: nat) {
    k < |orders| && AllTie(orders[..k], a, b) && KeyBefore(orders[k], a, b)
  }

  ghost predicate ComesBefore(orders: seq<Order>, a: Document, b: Document) {
    exists k :: DecidesFor(orders, a, b, k)
  }

  /** The sign of the first key that tells the documents apart. */
  function CompareDocs(orders: seq<Order>, a: Document, b: Document): (c: int)
    ensures -1 <= c <= 1
  {
    if orders == [] then 0
    else
      var c := CompareValues(Key(a, orders[0]), Key(b, orders[0]));
      if c == 0 then CompareDocs(orders[1..], a, b)
      else if orders[0].descending then -c
      else c
  }

  /** The comparator decides by the first key that differs, in the direction of that key. */
  lemma {:induction false} CompareDocsMeans(orders: seq<Order>, a: Document, b: Document)
    ensures CompareDocs(orders, a, b) == 0 <==> AllTie(orders, a, b)
    ensures CompareDocs(orders, a, b) < 0 <==> ComesBefore(orders, a, b)
  {
    hide CompareValues, Below, Tied, Key;
    if orders != [] {
      var o, rest := orders[0], orders[1..];
      CompareDecides(Key(a, o), Key(b, o));
      CompareDecides(Key(b, o), Key(a, o));
      CompareDocsMeans(rest, a, b);
      AllTieSplits(orders, a, b);
      if KeysTie(o, a, b) {
        if k :| DecidesFor(rest, a, b, k) { DecidesLater(orders, a, b, k); }
        if k :| DecidesFor(orders, a, b, k) { DecidesSooner(orders, a, b, k); }
      } else {
        if KeyBefore(o, a, b) { assert DecidesFor(orders, a, b, 0); }
        if k :| DecidesFor(orders, a, b, k) { TieFirst(orders, a, b, k); }
      }
    }
  }

  lemma AllTieSplits(orders: seq<Order>, a: Document, b: Document)
    requires orders != []
    ensures AllTie(orders, a, b) <==> KeysTie(orders[0], a, b) && AllTie(orders[1..], a, b)
  {
    hide KeysTie;
    if KeysTie(orders[0], a, b) && AllTie(orders[1..], a, b) {
      forall k | 0 <= k < |orders| ensures KeysTie(orders[k], a, b) {
        if k > 0 { assert orders[k] == orders[1..][k - 1]; }
      }
    }
  }

  lemma TieFirst(orders: seq<Order>, a: Document, b: Document, k: nat)
    requires DecidesFor(orders, a, b, k)
    ensures k > 0 ==> KeysTie(orders[0], a, b)
  {
    hide KeysTie;
    assert k > 0 ==> orders[..k][0] == orders[0];
  }

  lemma DecidesLater(orders: seq<Order>, a: Document, b: Document, k: nat)
    requires orders != [] && KeysTie(orders[0], a, b) && DecidesFor(orders[1..], a, b, k)
    ensures DecidesFor(orders, a, b, k + 1)
  {
    hide KeysTie, KeyBefore;
    assert orders[..k + 1][0] == orders[0] && orders[..k + 1][1..] == orders[1..][..k];
    AllTieSplits(orders[..k + 1], a, b);
  }

  lemma DecidesSooner(orders: seq<Order>, a: Document, b: Document, k: nat)
    requires DecidesFor(orders, a, b, k) && KeysTie(orders[0], a, b)
    ensures k > 0 && DecidesFor(orders[1..], a, b, k - 1)
  {
    TieIsNotBefore(orders[0], a, b);
    hide KeysTie, KeyBefore;
    assert k > 0;
    assert orders[..k][1..] == orders[1..][..k - 1];
    AllTieSplits(orders[..k], a, b);
  }

  lemma TieIsNotBefore(o: Order, a: Document, b: Document)
    requires KeysTie(o, a, b)
    ensures !KeyBefore(o, a, b)
  {
    CompareDecides(Key(a, o), Key(b, o));
    CompareDecides(Key(b, o), Key(a, o));
    hide Below, Tied, Key;
  }

  lemma {:induction false} CompareDocsAntisymmetric(orders: seq<Order>, a: Document, b: Document)
    ensures CompareDocs(orders, a, b) == -CompareDocs(orders, b, a)
    ensures CompareDocs(orders, a, a) == 0
  {
    if orders != [] {
      CompareValuesAntisymmetric(Key(a, orders[0]), Key(b, orders[0]));
      CompareDocsAntisymmetric(orders[1..], a, b);
    }
  }

  lemma {:induction false} CompareDocsTransitive(orders: seq<Order>, a: Document, b: Document, c: Document)
    requires CompareDocs(orders, a, b) <= 0 && CompareDocs(orders, b, c) <= 0
    ensures CompareDocs(orders, a, c) <= 0
    ensures CompareDocs(orders, a, c) == 0 ==> CompareDocs(orders, a, b) == 0 && CompareDocs(orders, b, c) == 0
  {
    if orders != [] {
      var x, y, z := Key(a, orders[0]), Key(b, orders[0]), Key(c, orders[0]);
      KeyTransitive(x, y, z);
      KeyTransitive(z, y, x);
      if CompareValues(x, y) == 0 && CompareValues(y, z) == 0 {
        CompareDocsTransitive(orders[1..], a, b, c);
      }
    }
  }

  lemma KeyTransitive(x: Option<Value>, y: Option<Value>, z: Option<Value>)
    ensures CompareValues(x, y) == -CompareValues(y, x)
    ensures CompareValues(y, z) == -CompareValues(z, y)
    ensures CompareValues(x, z) == -CompareValues(z, x)
    ensures CompareValues(x, y) <= 0 && CompareValues(y, z) <= 0 ==>
              CompareValues(x, z) <= 0 &&
              (CompareValues(x, z) == 0 ==> CompareValues(x, y) == 0 && CompareValues(y, z) == 0)
  {
    CompareValuesAntisymmetric(x, y);
    CompareValuesAntisymmetric(y, z);
    CompareValuesAntisymmetric(x, z);
    if CompareValues(x, y) <= 0 && CompareValues(y, z) <= 0 { CompareValuesTransitive(x, y, z); }
  }

  // ---------- the sort ----------

  /** `d` inserted behind every document that does not order after it. */
  function InsertLast(orders: seq<Order>, s: seq<Document>, d: Document): seq<Document> {
    if s == [] then [d]
    else
      var last := s[|s| - 1];
      if CompareDocs(orders, d, last) < 0 then InsertLast(orders, s[..|s| - 1], d) + [last] else s + [d]
  }

  function StableSort(orders: seq<Order>, docs: seq<Document>): (r: seq<Document>)
    ensures |r| == |docs|
  {
    if docs == [] then []
    else
      InsertLastMultiset(orders, StableSort(orders, docs[..|docs| - 1]), docs[|docs| - 1]);
      InsertLast(orders, StableSort(orders, docs[..|docs| - 1]), docs[|docs| - 1])
  }

  lemma {:induction false} InsertLastMultiset(orders: seq<Order>, s: seq<Document>, d: Document)
    ensures multiset(InsertLast(orders, s, d)) == multiset(s) + multiset{d}
    ensures |InsertLast(orders, s, d)| == |s| + 1
  {
    if s != [] {
      assert s == s[..|s| - 1] + [s[|s| - 1]];
      InsertLastMultiset(orders, s[..|s| - 1], d);
    }
  }

  /** Sorts in place, as `sort.SliceStable` does, by insertion: each document moves left past those
    that order strictly after it. */
  method ApplyOrderBy(docs: array<Document>, orders: seq<Order>)
    modifies docs
    ensures docs[..] == StableSort(orders, old(docs[..]))
    ensures IsStableSort(orders, old(docs[..]), docs[..])
  {
    hide IsStableSort;
    ghost var input := docs[..];
    var i := 0;
    while i < docs.Length
      invariant 0 <= i <= docs.Length
      invariant docs[..i] == StableSort(orders, input[..i])
      invariant docs[i..] == input[i..]
    {
      MoveLeft(docs, orders, i);
      assert input[..i + 1][..i] == input[..i];
      i := i + 1;
    }
    assert input[..docs.Length] == input;
    assert docs[..docs.Length] == docs[..];
    StableSortIsStable(orders, input);
  }

  method KeyOf(d: Document, o: Order) returns (v: Option<Value>)
    ensures v == Key(d, o)
  {
    if o.path == NAME { return Some(Str(d.name)); }
    v := GetFieldValue(d.fields, o.path);
  }

  /** The comparison that the sort is given: the loop stops at the first key that differs. */
  method OrdersBefore(orders: seq<Order>, a: Document, b: Document) returns (before: bool)
    ensures before <==> ComesBefore(orders, a, b)
  {
    hide CompareValues, Below, Tied, Key;
    for k := 0 to |orders|
      invariant AllTie(orders[..k], a, b)
    {
      var x := KeyOf(a, orders[k]);
      var y := KeyOf(b, orders[k]);
      CompareDecides(x, y);
      CompareDecides(y, x);
      var c := CompareValues(x, y);
      if c != 0 {
        before := if orders[k].descending then c > 0 else c < 0;
        DecidedHere(orders, a, b, k);
        assert before ==> DecidesFor(orders, a, b, k);
        return;
      }
      assert orders[..k + 1] == orders[..k] + [orders[k]];
    }
    assert orders[..|orders|] == orders;
    TiedAreNotBefore(orders, a, b);
    before := false;
  }

  /** Only the first key that differs decides. */
  lemma DecidedHere(orders: seq<Order>, a: Document, b: Document, k: nat)
    requires k < |orders| && AllTie(orders[..k], a, b) && !KeysTie(orders[k], a, b)
    ensures forall j :: DecidesFor(orders, a, b, j) ==> j == k
  {
    hide KeysTie, KeyBefore;
    forall j: nat | DecidesFor(orders, a, b, j) ensures j == k {
      if j < k {
        TieAt(orders, a, b, k, j);
        TieIsNotBefore(orders[j], a, b);
      } else if j > k {
        TieAt(orders, a, b, j, k);
      }
    }
  }

  lemma TieAt(orders: seq<Order>, a: Document, b: Document, k: nat, j: nat)
    requires j < k <= |orders| && AllTie(orders[..k], a, b)
    ensures KeysTie(orders[j], a, b)
  {
    hide KeysTie;
    assert orders[..k][j] == orders[j];
  }

  lemma TiedAreNotBefore(orders: seq<Order>, a: Document, b: Document)
    requires AllTie(orders, a, b)
    ensures !ComesBefore(orders, a, b)
  {
    hide KeysTie, KeyBefore;
    forall j: nat ensures !DecidesFor(orders, a, b, j) {
      if j < |orders| { TieIsNotBefore(orders[j], a, b); }
    }
  }

  method MoveLeft(docs: array<Document>, orders: seq<Order>, i: nat)
    requires i < docs.Length
    modifies docs
    ensures docs[..i + 1] == InsertLast(orders, old(docs[..i]), old(docs[i]))
    ensures docs[i + 1..] == old(docs[i + 1..])
  {
    hide *;
    ghost var s, d, rest := docs[..i], docs[i], docs[i + 1..];
    var j := i;
    assert s[..i] == s && s[i..] == [];
    while j > 0
      invariant 0 <= j <= i
      invariant docs[..] == s[..j] + [d] + s[j..] + rest
      invariant InsertLast(orders, s, d) == InsertLast(orders, s[..j], d) + s[j..]
    {
      SwapLeft(docs[..], s, d, rest, j);
      var passes := OrdersBefore(orders, docs[j], docs[j - 1]);
      if !passes {
        assert s[..j][j - 1] == s[j - 1];
        break;
      }
      InsertLastPasses(orders, s, d, j);
      ghost var before := docs[..];
      docs[j], docs[j - 1] := docs[j - 1], docs[j];
      j := j - 1;
      assert docs[..] == before[j + 1 := before[j]][j := before[j + 1]];
    }
    InsertLastStops(orders, s[..j], d);
    MovedParts(docs[..], s, d, rest, j);
    assert docs[..i + 1] == docs[..][..i + 1] && docs[i + 1..] == docs[..][i + 1..];
  }

  lemma SwapLeft(a: seq<Document>, s: seq<Document>, d: Document, rest: seq<Document>, j: nat)
    requires 0 < j <= |s| && a == s[..j] + [d] + s[j..] + rest
    ensures a[j] == d && a[j - 1] == s[j - 1]
    ensures a[j := a[j - 1]][j - 1 := a[j]] == s[..j - 1] + [d] + s[j - 1..] + rest
  {}

  lemma MovedParts(a: seq<Document>, s: seq<Document>, d: Document, rest: seq<Document>, j: nat)
    requires j <= |s| && a == s[..j] + [d] + s[j..] + rest
    ensures a[..|s| + 1] == s[..j] + [d] + s[j..] && a[|s| + 1..] == rest
  {}

  lemma InsertLastStops(orders: seq<Order>, s: seq<Document>, d: Document)
    requires s == [] || !ComesBefore(orders, d, s[|s| - 1])
    ensures InsertLast(orders, s, d) == s + [d]
  {
    if s != [] { CompareDocsMeans(orders, d, s[|s| - 1]); }
  }

  lemma InsertLastPasses(orders: seq<Order>, s: seq<Document>, d: Document, j: nat)
    requires 0 < j <= |s| && ComesBefore(orders, d, s[j - 1])
    ensures InsertLast(orders, s[..j], d) + s[j..] == InsertLast(orders, s[..j - 1], d) + s[j - 1..]
  {
    CompareDocsMeans(orders, d, s[j - 1]);
    hide CompareDocs, ComesBefore;
    assert s[..j][..j - 1] == s[..j - 1] && s[..j][j - 1] == s[j - 1];
    assert s[j - 1..] == [s[j - 1]] + s[j..];
  }

  // ---------- the stable sort is unique ----------

  ghost predicate Sorted(orders: seq<Order>, s: seq<Document>) {
    forall i, j :: 0 <= i < j < |s| ==> CompareDocs(orders, s[i], s[j]) <= 0
  }

  /** The documents of `s` that tie with `d`, in their order in `s`. */
  function Ties(orders: seq<Order>, d: Document, s: seq<Document>): seq<Document> {
    if s == [] then []
    else (if CompareDocs(orders, s[0], d) == 0 then [s[0]] else []) + Ties(orders, d, s[1..])
  }

  /** Of any two documents, the earlier comes before the later or they tie in all keys. */
  ghost predicate OrderedBy(orders: seq<Order>, s: seq<Document>) {
    forall i, j :: 0 <= i < j < |s| ==> ComesBefore(orders, s[i], s[j]) || AllTie(orders, s[i], s[j])
  }

  /** The documents of `s` that tie with `d` in all keys, in their order in `s`. */
  ghost function Alike(orders: seq<Order>, d: Document, s: seq<Document>): seq<Document> {
    if s == [] then [] else (if AllTie(orders, s[0], d) then [s[0]] else []) + Alike(orders, d, s[1..])
  }

  lemma SortedIsOrderedBy(orders: seq<Order>, s: seq<Document>)
    ensures Sorted(orders, s) <==> OrderedBy(orders, s)
  {
    hide CompareDocs, ComesBefore, AllTie;
    forall i, j | 0 <= i < j < |s|
      ensures CompareDocs(orders, s[i], s[j]) <= 0 <==> ComesBefore(orders, s[i], s[j]) || AllTie(orders, s[i], s[j])
    {
      CompareDocsMeans(orders, s[i], s[j]);
    }
  }

  lemma {:induction false} TiesAreAlike(orders: seq<Order>, d: Document, s: seq<Document>)
    ensures Ties(orders, d, s) == Alike(orders, d, s)
  {
    hide CompareDocs, AllTie;
    if s != [] {
      CompareDocsMeans(orders, s[0], d);
      TiesAreAlike(orders, d, s[1..]);
    }
  }

  /** `r` lists the documents of `s` in order, and documents that tie stay in the order they had. */
  ghost predicate IsStableSort(orders: seq<Order>, s: seq<Document>, r: seq<Document>) {
    OrderedBy(orders, r) && forall d :: Alike(orders, d, r) == Alike(orders, d, s)
  }

  ghost predicate SameTies(orders: seq<Order>, s: seq<Document>, r: seq<Document>) {
    forall d :: Ties(orders, d, r) == Ties(orders, d, s)
  }

  lemma StableSortThroughCompare(orders: seq<Order>, s: seq<Document>, r: seq<Document>)
    ensures IsStableSort(orders, s, r) <==> Sorted(orders, r) && SameTies(orders, s, r)
  {
    hide Sorted, OrderedBy, AllTie, CompareDocs;
    SortedIsOrderedBy(orders, r);
    forall d ensures Ties(orders, d, r) == Alike(orders, d, r) && Ties(orders, d, s) == Alike(orders, d, s) {
      TiesAreAlike(orders, d, r);
      TiesAreAlike(orders, d, s);
    }
    if SameTies(orders, s, r) {
      forall d ensures Alike(orders, d, r) == Alike(orders, d, s) {
        assert Ties(orders, d, r) == Ties(orders, d, s);
      }
    }
    if forall d :: Alike(orders, d, r) == Alike(orders, d, s) {
      forall d ensures Ties(orders, d, r) == Ties(orders, d, s) {
        assert Alike(orders, d, r) == Alike(orders, d, s);
      }
    }
  }

  lemma {:induction false} TiesOfConcat(orders: seq<Order>, d: Document, s: seq<Document>, t: seq<Document>)
    ensures Ties(orders, d, s + t) == Ties(orders, d, s) + Ties(orders, d, t)
  {
    if s == [] {
      assert s + t == t;
    } else {
      TiesOfConcat(orders, d, s[1..], t);
      assert (s + t)[0] == s[0] && (s + t)[1..] == s[1..] + t;
    }
  }

  lemma {:induction false} TiesMembers(orders: seq<Order>, d: Document, s: seq<Document>)
    ensures forall x :: x in Ties(orders, d, s) <==> x in s && CompareDocs(orders, x, d) == 0
  {
    if s != [] {
      TiesMembers(orders, d, s[1..]);
      assert forall x :: x in s <==> x == s[0] || x in s[1..];
    }
  }

  lemma {:induction false} InsertLastSorted(orders: seq<Order>, s: seq<Document>, d: Document)
    requires Sorted(orders, s)
    ensures Sorted(orders, InsertLast(orders, s, d))
  {
    hide CompareValues, Key, CompareDocs;
    if s != [] {
      var n := |s| - 1;
      if CompareDocs(orders, d, s[n]) < 0 {
        var front := InsertLast(orders, s[..n], d);
        InsertLastSorted(orders, s[..n], d);
        InsertLastMultiset(orders, s[..n], d);
        forall x | x in front ensures CompareDocs(orders, x, s[n]) <= 0 {
          assert x in multiset(front);
        }
      } else {
        CompareDocsAntisymmetric(orders, d, s[n]);
        forall i | 0 <= i < |s| ensures CompareDocs(orders, s[i], d) <= 0 {
          if i < n { CompareDocsTransitive(orders, s[i], s[n], d); }
        }
      }
    }
  }

  lemma {:induction false} InsertLastKeepsTies(orders: seq<Order>, s: seq<Document>, d: Document, x: Document)
    ensures Ties(orders, x, InsertLast(orders, s, d)) == Ties(orders, x, s + [d])
  {
    if s == [] {
      assert s + [d] == [d];
    } else {
      var front, last := s[..|s| - 1], s[|s| - 1];
      if CompareDocs(orders, d, last) < 0 {
        InsertLastKeepsTies(orders, front, d, x);
        LastTwoCommute(orders, x, front, d, last);
        TiesOfConcat(orders, x, InsertLast(orders, front, d), [last]);
        TiesOfConcat(orders, x, front + [d], [last]);
        assert s == front + [last];
      }
    }
  }

  /** Documents that do not tie may change places without disturbing the ties. */
  lemma LastTwoCommute(orders: seq<Order>, x: Document, s: seq<Document>, d: Document, e: Document)
    requires CompareDocs(orders, d, e) != 0
    ensures Ties(orders, x, s + [d] + [e]) == Ties(orders, x, s + [e] + [d])
  {
    TiesOfConcat(orders, x, s + [d], [e]);
    TiesOfConcat(orders, x, s, [d]);
    TiesOfConcat(orders, x, s + [e], [d]);
    TiesOfConcat(orders, x, s, [e]);
    if CompareDocs(orders, d, x) == 0 && CompareDocs(orders, e, x) == 0 {
      CompareDocsAntisymmetric(orders, e, x);
      CompareDocsTransitive(orders, d, x, e);
      CompareDocsAntisymmetric(orders, d, x);
      CompareDocsTransitive(orders, e, x, d);
      CompareDocsAntisymmetric(orders, d, e);
    }
  }

  lemma {:induction false} StableSortIsStable(orders: seq<Order>, docs: seq<Document>)
    ensures IsStableSort(orders, docs, StableSort(orders, docs))
    ensures multiset(StableSort(orders, docs)) == multiset(docs)
  {
    hide Sorted, Ties, IsStableSort;
    SortKeepsTies(orders, docs);
    StableSortThroughCompare(orders, docs, StableSort(orders, docs));
  }

  lemma {:induction false} SortKeepsTies(orders: seq<Order>, docs: seq<Document>)
    ensures Sorted(orders, StableSort(orders, docs))
    ensures forall d :: Ties(orders, d, StableSort(orders, docs)) == Ties(orders, d, docs)
    ensures multiset(StableSort(orders, docs)) == multiset(docs)
  {
    if docs != [] {
      var front, d := docs[..|docs| - 1], docs[|docs| - 1];
      assert docs == front + [d];
      SortKeepsTies(orders, front);
      InsertLastSorted(orders, StableSort(orders, front), d);
      InsertLastMultiset(orders, StableSort(orders, front), d);
      forall x ensures Ties(orders, x, StableSort(orders, docs)) == Ties(orders, x, docs) {
        InsertLastKeepsTies(orders, StableSort(orders, front), d, x);
        TiesOfConcat(orders, x, StableSort(orders, front), [d]);
        TiesOfConcat(orders, x, front, [d]);
      }
    }
  }

  lemma {:induction false} StableSortUnique(orders: seq<Order>, r: seq<Document>, q: seq<Document>)
    requires Sorted(orders, r) && Sorted(orders, q)
    requires forall d :: Ties(orders, d, r) == Ties(orders, d, q)
    ensures r == q
  {
    if r != [] {
      HeadTiesWithHead(orders, r, q);
    }
    if q != [] {
      HeadTiesWithHead(orders, q, r);
    }
    if r != [] {
      CompareDocsAntisymmetric(orders, r[0], q[0]);
      CompareDocsAntisymmetric(orders, r[0], r[0]);
      assert Ties(orders, r[0], r)[0] == r[0] && Ties(orders, r[0], q)[0] == q[0];
      forall d ensures Ties(orders, d, r[1..]) == Ties(orders, d, q[1..]) {
        var head := if CompareDocs(orders, r[0], d) == 0 then [r[0]] else [];
        assert Ties(orders, d, r) == head + Ties(orders, d, r[1..]);
        assert Ties(orders, d, q) == head + Ties(orders, d, q[1..]);
        assert Ties(orders, d, r[1..]) == Ties(orders, d, r)[|head|..];
        assert Ties(orders, d, q[1..]) == Ties(orders, d, q)[|head|..];
      }
      StableSortUnique(orders, r[1..], q[1..]);
    }
  }

  /** The head of one sorted sequence occurs in the other, so it does not precede its head. */
  lemma HeadTiesWithHead(orders: seq<Order>, r: seq<Document>, q: seq<Document>)
    requires Sorted(orders, q) && r != []
    requires Ties(orders, r[0], r) == Ties(orders, r[0], q)
    ensures q != [] && CompareDocs(orders, q[0], r[0]) <= 0
  {
    CompareDocsAntisymmetric(orders, r[0], r[0]);
    TiesMembers(orders, r[0], r);
    TiesMembers(orders, r[0], q);
    assert r[0] in Ties(orders, r[0], q);
    var i :| 0 <= i < |q| && q[i] == r[0];
    CompareDocsAntisymmetric(orders, q[0], q[0]);
  }

  /** Every implementation of a stable sort returns what `StableSort` returns. */
  lemma {:induction false} AnyStableSortIsThisOne(orders: seq<Order>, docs: seq<Document>, r: seq<Document>)
    ensures IsStableSort(orders, docs, r) <==> r == StableSort(orders, docs)
  {
    hide Sorted, Ties, IsStableSort;
    SortKeepsTies(orders, docs);
    StableSortThroughCompare(orders, docs, r);
    StableSortThroughCompare(orders, docs, StableSort(orders, docs));
    if IsStableSort(orders, docs, r) {
      StableSortUnique(orders, r, StableSort(orders, docs));
    }
  }

  // ---------- ordering by name is total ----------

  ghost predicate OrdersByName(orders: seq<Order>) {
    exists o :: o in orders && o.path == NAME
  }

  lemma {:induction false} NameSeparates(orders: seq<Order>, a: Document, b: Document)
    requires OrdersByName(orders) && CompareDocs(orders, a, b) == 0
    ensures a.name == b.name
  {
    if orders[0].path == NAME {
      CompareAntisymmetric(a.name, b.name);
    } else {
      NameSeparates(orders[1..], a, b);
    }
  }

  /** With distinct names, at most one document ties with any given one. */
  lemma {:induction false} AtMostOneTie(orders: seq<Order>, d: Document, s: seq<Document>)
    requires OrdersByName(orders) && DistinctNames(s)
    ensures |Ties(orders, d, s)| <= 1
  {
    if s != [] {
      AtMostOneTie(orders, d, s[1..]);
      TiesMembers(orders, d, s[1..]);
      if CompareDocs(orders, s[0], d) == 0 && Ties(orders, d, s[1..]) != [] {
        var e := Ties(orders, d, s[1..])[0];
        CompareDocsAntisymmetric(orders, e, d);
        CompareDocsTransitive(orders, s[0], d, e);
        CompareDocsAntisymmetric(orders, s[0], d);
        CompareDocsTransitive(orders, e, d, s[0]);
        CompareDocsAntisymmetric(orders, s[0], e);
        NameSeparates(orders, s[0], e);
      }
    }
  }

  /** Sorting by keys that include the name gives one result for one set of documents, in whatever
    order they arrive. */
  lemma {:induction false} SortIgnoresInputOrder(orders: seq<Order>, s: seq<Document>, t: seq<Document>)
    requires OrdersByName(orders) && DistinctNames(s) && DistinctNames(t)
    requires forall d :: d in s <==> d in t
    ensures StableSort(orders, s) == StableSort(orders, t)
  {
    SortKeepsTies(orders, s);
    SortKeepsTies(orders, t);
    forall d ensures Ties(orders, d, s) == Ties(orders, d, t) {
      AtMostOneTie(orders, d, s);
      AtMostOneTie(orders, d, t);
      TiesMembers(orders, d, s);
      TiesMembers(orders, d, t);
      SameSingleton(Ties(orders, d, s), Ties(orders, d, t));
    }
    StableSortUnique(orders, StableSort(orders, s), StableSort(orders, t));
  }

  lemma SameSingleton(s: seq<Document>, t: seq<Document>)
    requires |s| <= 1 && |t| <= 1
    requires forall d :: d in s <==> d in t
    ensures s == t
  {
    assert s != [] ==> s[0] in t;
    assert t != [] ==> t[0] in s;
  }

  // ---------- a single key ----------

  lemma {:induction false} OneKey(o: Order, docs: seq<Document>, i: nat, j: nat)
    requires i < j < |docs|
    ensures var r := StableSort([o], docs); KeyBefore(o, r[i], r[j]) || KeysTie(o, r[i], r[j])
  {
    hide KeyBefore, KeysTie, StableSort, Alike;
    var r := StableSort([o], docs);
    StableSortIsStable([o], docs);
    if ComesBefore([o], r[i], r[j]) {
      var k :| DecidesFor([o], r[i], r[j], k);
    } else {
      assert KeysTie([o][0], r[i], r[j]);
    }
  }

  /** Ordered by name, documents come in dictionary order of their names, or in its reverse. */
  lemma {:induction false} NamesInOrder(docs: seq<Document>, i: nat, j: nat)
    requires i < j < |docs|
    ensures var r := StableSort([Order(NAME, false)], docs); Before(r[i].name, r[j].name) || r[i].name == r[j].name
    ensures var r := StableSort([Order(NAME, true)], docs); Before(r[j].name, r[i].name) || r[i].name == r[j].name
  {
    hide StableSort, Before;
    OneKey(Order(NAME, false), docs, i, j);
    OneKey(Order(NAME, true), docs, i, j);
  }

  /** Ordered by a field that holds integers up to a magnitude of 2^53, documents come in the order of those,
    or in its reverse. */
  lemma {:induction false} IntegersInOrder(path: string, descending: bool, docs: seq<Document>, at: map<Document, int>,
                                           i: nat, j: nat)
    requires i < j < |docs| && path != NAME
    requires forall d :: d in docs ==> d in at && HasAt(d, path, Integer(at[d])) && -P53 <= at[d] <= P53
    ensures var r := StableSort([Order(path, descending)], docs);
            && r[i] in at && r[j] in at
            && if descending then at[r[i]] >= at[r[j]] else at[r[i]] <= at[r[j]]
  {
    hide StableSort, HasAt, Below, Tied, Lookup, Split;
    var o := Order(path, descending);
    var r := StableSort([o], docs);
    OneKey(o, docs, i, j);
    SortedMembers([o], docs, i);
    SortedMembers([o], docs, j);
    ValueAt(r[i], path, Integer(at[r[i]]));
    ValueAt(r[j], path, Integer(at[r[j]]));
    IntegersBelow(at[r[i]], at[r[j]]);
    IntegersBelow(at[r[j]], at[r[i]]);
  }

  lemma SortedMembers(orders: seq<Order>, docs: seq<Document>, i: nat)
    requires i < |docs|
    ensures StableSort(orders, docs)[i] in docs
  {
    hide IsStableSort;
    StableSortIsStable(orders, docs);
    assert StableSort(orders, docs)[i] in multiset(StableSort(orders, docs));
  }
}
