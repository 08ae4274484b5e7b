/** WHERE filters: what `applyFilter` computes, and that it is the meaning of the filter tree. */
module FirestoreFilter {
  import opened Wrappers
  import opened Text
  import opened Binary64
  import opened FirestoreValues

  datatype Operator =
    | Equal | NotEqual | LessThan | LessThanOrEqual | GreaterThan | GreaterThanOrEqual
    | In | NotIn | ArrayContains | ArrayContainsAny | UnspecifiedOperator

  datatype Connective = And | Or | UnspecifiedConnective

  /** `OtherFilter` is every filter kind that `applyFilter` does not know; it keeps all documents. */
  datatype Filter =
    | FieldFilter(path: string, op: Operator, target: Option<Value>)
    | CompositeFilter(connective: Connective, filters: seq<Filter>)
    | OtherFilter

  // ---------- field access ----------

  /** `strings.Split(path, ".")`. */
  function Split(path: string): (parts: seq<string>)
    ensures parts != []
    decreases |path|
  {
    var i := Index(path, ".");
    if i == -1 then [path] else [path[..i]] + Split(path[i + 1..])
  }

  function Lookup(fields: Fields, parts: seq<string>): Option<Value>
    requires parts != []
    decreases |parts|
  {
    if parts[0] !in fields then None
    else if |parts| == 1 then Some(fields[parts[0]])
    else if fields[parts[0]].Map? then Lookup(fields[parts[0]].fields, parts[1..])
    else None
  }

  function Join(parts: seq<string>): string
    decreases parts
  {
    if parts == [] then "" else if |parts| == 1 then parts[0] else parts[0] + "." + Join(parts[1..])
  }

  /** Splitting cuts at every dot and nowhere else. */
  lemma {:induction false} SplitCutsAtDots(path: string)
    ensures Join(Split(path)) == path
    ensures forall part :: part in Split(path) ==> '.' !in part
    decreases |path|
  {
    var i := Index(path, ".");
    if i == -1 {
      NoOccurrence(path);
    } else {
      assert path[..i] + "." + path[i + 1..] == path by { assert path[i..i + 1] == "."; }
      forall j ensures !OccursAt(path[..i], ".", j) {
        if OccursAt(path[..i], ".", j) {
          assert path[j..j + 1] == path[..i][j..j + 1];
          assert OccursAt(path, ".", j);
        }
      }
      NoOccurrence(path[..i]);
      SplitCutsAtDots(path[i + 1..]);
      assert ([path[..i]] + Split(path[i + 1..]))[1..] == Split(path[i + 1..]);
    }
  }

  lemma NoOccurrence(s: string)
    requires forall j :: !OccursAt(s, ".", j)
    ensures '.' !in s
  {
    forall j | 0 <= j < |s| ensures s[j] != '.' {
      assert !OccursAt(s, ".", j);
      assert s[j..j + 1] == [s[j]];
    }
  }

  method GetFieldValue(fields: Fields, path: string) returns (v: Option<Value>)
    ensures v == Lookup(fields, Split(path))
  {
    var parts := Split(path);
    var current := fields;
    var i := 0;
    while i < |parts|
      invariant 0 <= i < |parts|
      invariant Lookup(fields, parts) == Lookup(current, parts[i..])
    {
      if parts[i] !in current { return None; }
      if i == |parts| - 1 { return Some(current[parts[i]]); }
      if !current[parts[i]].Map? { return None; }
      assert parts[i..][1..] == parts[i + 1..];
      current := current[parts[i]].fields;
      i := i + 1;
    }
    v := None;
  }

  /** `trail` is the chain of nested maps that the parts of a path lead through, to `v`. */
  ghost predicate LeadsTo(fields: Fields, parts: seq<string>, trail: seq<Fields>, v: Value) {
    && |trail| == |parts| > 0 && trail[0] == fields
    && (forall i :: 0 <= i < |parts| - 1 ==> parts[i] in trail[i] && trail[i][parts[i]] == Map(trail[i + 1]))
    && parts[|parts| - 1] in trail[|parts| - 1] && trail[|parts| - 1][parts[|parts| - 1]] == v
  }

  /** A lookup finds a value exactly when the path leads to it. */
  lemma {:induction false} LookupFollowsThePath(fields: Fields, parts: seq<string>, v: Value)
    requires parts != []
    ensures Lookup(fields, parts) == Some(v) <==> exists trail :: LeadsTo(fields, parts, trail, v)
    decreases |parts|
  {
    if parts[0] !in fields {
    } else if |parts| == 1 {
      assert fields[parts[0]] == v ==> LeadsTo(fields, parts, [fields], v);
    } else if fields[parts[0]].Map? {
      var inner := fields[parts[0]].fields;
      LookupFollowsThePath(inner, parts[1..], v);
      if trail :| LeadsTo(inner, parts[1..], trail, v) { TrailGrows(fields, parts, trail, v); }
      if trail :| LeadsTo(fields, parts, trail, v) { TrailShrinks(fields, parts, trail, v); }
    } else {
      if trail :| LeadsTo(fields, parts, trail, v) { TrailShrinks(fields, parts, trail, v); }
    }
  }

  lemma TrailGrows(fields: Fields, parts: seq<string>, trail: seq<Fields>, v: Value)
    requires |parts| > 1 && parts[0] in fields && fields[parts[0]].Map?
    requires LeadsTo(fields[parts[0]].fields, parts[1..], trail, v)
    ensures LeadsTo(fields, parts, [fields] + trail, v)
  {
    var longer := [fields] + trail;
    forall i | 0 <= i < |parts| - 1 ensures parts[i] in longer[i] && longer[i][parts[i]] == Map(longer[i + 1]) {
      if i > 0 { assert parts[i] == parts[1..][i - 1]; }
    }
  }

  lemma TrailShrinks(fields: Fields, parts: seq<string>, trail: seq<Fields>, v: Value)
    requires |parts| > 1 && LeadsTo(fields, parts, trail, v)
    ensures parts[0] in fields && fields[parts[0]].Map?
    ensures LeadsTo(fields[parts[0]].fields, parts[1..], trail[1..], v)
  {
    assert trail[0][parts[0]] == Map(trail[1]);
  }

  // ---------- operators ----------

  ghost predicate AmongTied(v: Option<Value>, target: Option<Value>) {
    target.Some? && target.value.Array? && exists e :: e in target.value.elements && Tied(v, Some(e))
  }

  /** What a field filter asks of a document's value. */
  ghost predicate Passes(v: Option<Value>, op: Operator, target: Option<Value>) {
    match op
    case Equal => Tied(v, target)
    case NotEqual => !Tied(v, target)
    case LessThan => Below(v, target)
    case LessThanOrEqual => Below(v, target) || Tied(v, target)
    case GreaterThan => Below(target, v)
    case GreaterThanOrEqual => Below(target, v) || Tied(v, target)
    case In => AmongTied(v, target)
    case NotIn => !AmongTied(v, target)
    case ArrayContains => AmongTied(target, v)
    case ArrayContainsAny =>
      && v.Some? && v.value.Array?
      && target.Some? && target.value.Array?
      && exists t :: t in target.value.elements && AmongTied(Some(t), v)
    case UnspecifiedOperator => false
  }

  method ValueInArray(v: Option<Value>, target: Option<Value>) returns (found: bool)
    ensures found <==> AmongTied(v, target)
  {
    hide Tied, CompareValues;
    if target.None? || !target.value.Array? { return false; }
    var elements := target.value.elements;
    for i := 0 to |elements|
      invariant forall j :: 0 <= j < i ==> !Tied(v, Some(elements[j]))
    {
      TiesExactly(v, Some(elements[i]));
      if CompareValues(v, Some(elements[i])) == 0 {
        assert elements[i] in elements;
        return true;
      }
    }
    found := false;
  }

  method ArrayContainsValue(v: Option<Value>, target: Option<Value>) returns (found: bool)
    ensures found <==> AmongTied(target, v)
  {
    hide Tied, CompareValues;
    if v.None? || !v.value.Array? { return false; }
    var elements := v.value.elements;
    for i := 0 to |elements|
      invariant forall j :: 0 <= j < i ==> !Tied(target, Some(elements[j]))
    {
      CompareDecides(Some(elements[i]), target);
      CompareDecides(target, Some(elements[i]));
      if CompareValues(Some(elements[i]), target) == 0 {
        assert elements[i] in elements;
        return true;
      }
    }
    found := false;
  }

  method ContainsAny(v: Option<Value>, target: Option<Value>) returns (found: bool)
    ensures found <==> Passes(v, ArrayContainsAny, target)
  {
    hide Tied, AmongTied;
    if v.None? || !v.value.Array? || target.None? || !target.value.Array? { return false; }
    var wanted := target.value.elements;
    for i := 0 to |wanted|
      invariant forall j :: 0 <= j < i ==> !AmongTied(Some(wanted[j]), v)
    {
      var here := ArrayContainsValue(v, Some(wanted[i]));
      if here {
        assert wanted[i] in wanted;
        return true;
      }
    }
    found := false;
  }

  method MatchesOp(v: Option<Value>, target: Option<Value>, op: Operator) returns (matches: bool)
    ensures matches <==> Passes(v, op, target)
  {
    hide Below, Tied, AmongTied, CompareValues;
    CompareDecides(v, target);
    match op {
      case Equal => matches := CompareValues(v, target) == 0;
      case NotEqual => matches := CompareValues(v, target) != 0;
      case LessThan => matches := CompareValues(v, target) < 0;
      case LessThanOrEqual => matches := CompareValues(v, target) <= 0;
      case GreaterThan => matches := CompareValues(v, target) > 0;
      case GreaterThanOrEqual => matches := CompareValues(v, target) >= 0;
      case In => matches := ValueInArray(v, target);
      case NotIn =>
        var found := ValueInArray(v, target);
        matches := !found;
      case ArrayContains => matches := ArrayContainsValue(v, target);
      case ArrayContainsAny => matches := ContainsAny(v, target);
      case UnspecifiedOperator => matches := false;
    }
  }

  ghost predicate FieldMatches(d: Document, path: string, op: Operator, target: Option<Value>) {
    Passes(Lookup(d.fields, Split(path)), op, target)
  }

  // ---------- what the loops compute ----------

  function Names(docs: seq<Document>): set<string> {
    set d | d in docs :: d.name
  }

  ghost function SelectField(docs: seq<Document>, path: string, op: Operator, target: Option<Value>): seq<Document> {
    if docs == [] then []
    else (if FieldMatches(docs[0], path, op, target) then [docs[0]] else []) + SelectField(docs[1..], path, op, target)
  }

  ghost function Filtered(docs: seq<Document>, f: Filter): seq<Document>
    decreases f, 1
  {
    match f
    case FieldFilter(path, op, target) => SelectField(docs, path, op, target)
    case CompositeFilter(And, filters) => FilteredInTurn(docs, filters)
    case CompositeFilter(Or, filters) => UnionFrom(docs, filters, [])
    case CompositeFilter(UnspecifiedConnective, _) => docs
    case OtherFilter => docs
  }

  ghost function FilteredInTurn(docs: seq<Document>, filters: seq<Filter>): seq<Document>
    decreases filters, 0
  {
    if filters == [] then docs else FilteredInTurn(Filtered(docs, filters[0]), filters[1..])
  }

  ghost function UnionFrom(docs: seq<Document>, filters: seq<Filter>, acc: seq<Document>): seq<Document>
    decreases filters, 0
  {
    if filters == [] then acc
    else UnionFrom(docs, filters[1..], AddUnseen(acc, Filtered(docs, filters[0])))
  }

  function AddUnseen(acc: seq<Document>, matched: seq<Document>): seq<Document>
    decreases matched
  {
    if matched == [] then acc
    else AddUnseen(if matched[0].name in Names(acc) then acc else acc + [matched[0]], matched[1..])
  }

  method ApplyFieldFilter(docs: seq<Document>, path: string, op: Operator, target: Option<Value>)
    returns (result: seq<Document>)
    ensures result == Filtered(docs, FieldFilter(path, op, target))
  {
    hide Passes, Lookup, Split;
    result := [];
    for i := 0 to |docs|
      invariant result == SelectField(docs[..i], path, op, target)
    {
      SelectFieldNext(docs, path, op, target, i);
      var v := GetFieldValue(docs[i].fields, path);
      var matches := MatchesOp(v, target, op);
      if matches {
        result := result + [docs[i]];
      }
    }
    assert docs[..|docs|] == docs;
  }

  lemma SelectFieldNext(docs: seq<Document>, path: string, op: Operator, target: Option<Value>, i: nat)
    requires i < |docs|
    ensures SelectField(docs[..i + 1], path, op, target) ==
            if FieldMatches(docs[i], path, op, target) then SelectField(docs[..i], path, op, target) + [docs[i]]
            else SelectField(docs[..i], path, op, target)
  {
    hide FieldMatches;
    SelectFieldConcat(docs[..i], [docs[i]], path, op, target);
    assert docs[..i + 1] == docs[..i] + [docs[i]];
  }

  lemma {:induction false} SelectFieldConcat(s: seq<Document>, t: seq<Document>, path: string, op: Operator,
                                             target: Option<Value>)
    ensures SelectField(s + t, path, op, target) == SelectField(s, path, op, target) + SelectField(t, path, op, target)
  {
    hide *;
    if s == [] {
      assert s + t == t;
      SelectFirstOf(s, path, op, target);
      assert [] + SelectField(t, path, op, target) == SelectField(t, path, op, target);
    } else {
      assert (s + t)[0] == s[0] && (s + t)[1..] == s[1..] + t;
      SelectFirstOf(s, path, op, target);
      SelectFirstOf(s + t, path, op, target);
      SelectFieldConcat(s[1..], t, path, op, target);
      var head := if FieldMatches(s[0], path, op, target) then [s[0]] else [];
      assert head + (SelectField(s[1..], path, op, target) + SelectField(t, path, op, target)) ==
             head + SelectField(s[1..], path, op, target) + SelectField(t, path, op, target);
    }
  }

  lemma SelectFirstOf(s: seq<Document>, path: string, op: Operator, target: Option<Value>)
    ensures s == [] ==> SelectField(s, path, op, target) == []
    ensures s != [] ==>
              SelectField(s, path, op, target)
              == (if FieldMatches(s[0], path, op, target) then [s[0]] else []) + SelectField(s[1..], path, op, target)
  {
    hide FieldMatches;
  }

  method ApplyFilter(docs: seq<Document>, f: Filter) returns (result: seq<Document>)
    ensures result == Filtered(docs, f)
    decreases f, 1
  {
    match f {
      case FieldFilter(path, op, target) => result := ApplyFieldFilter(docs, path, op, target);
      case CompositeFilter(connective, filters) => result := ApplyCompositeFilter(docs, connective, filters);
      case OtherFilter => result := docs;
    }
  }

  method ApplyCompositeFilter(docs: seq<Document>, connective: Connective, filters: seq<Filter>)
    returns (result: seq<Document>)
    ensures result == Filtered(docs, CompositeFilter(connective, filters))
    decreases filters, 0
  {
    if connective == And {
      result := docs;
      for i := 0 to |filters|
        invariant FilteredInTurn(docs, filters) == FilteredInTurn(result, filters[i..])
      {
        assert filters[i..][0] == filters[i] && filters[i..][1..] == filters[i + 1..];
        result := ApplyFilter(result, filters[i]);
      }
    } else if connective == Or {
      var seen: set<string> := {};
      result := [];
      for i := 0 to |filters|
        invariant seen == Names(result)
        invariant UnionFrom(docs, filters, []) == UnionFrom(docs, filters[i..], result)
      {
        assert filters[i..][0] == filters[i] && filters[i..][1..] == filters[i + 1..];
        var matched := ApplyFilter(docs, filters[i]);
        ghost var before := result;
        for j := 0 to |matched|
          invariant seen == Names(result)
          invariant AddUnseen(before, matched) == AddUnseen(result, matched[j..])
        {
          assert matched[j..][0] == matched[j] && matched[j..][1..] == matched[j + 1..];
          if matched[j].name !in seen {
            seen := seen + {matched[j].name};
            result := result + [matched[j]];
          }
        }
      }
    } else {
      result := docs;
    }
  }

  // ---------- the meaning of a filter tree ----------

  ghost predicate Holds(f: Filter, d: Document) {
    match f
    case FieldFilter(path, op, target) => FieldMatches(d, path, op, target)
    case CompositeFilter(And, filters) => forall g :: g in filters ==> Holds(g, d)
    case CompositeFilter(Or, filters) => exists g :: g in filters && Holds(g, d)
    case CompositeFilter(UnspecifiedConnective, _) => true
    case OtherFilter => true
  }

  ghost predicate DistinctNames(docs: seq<Document>) {
    forall i, j :: 0 <= i < j < |docs| ==> docs[i].name != docs[j].name
  }

  /** Documents of one name are one document, as in any listing of a store. */
  ghost predicate NamesIdentify(docs: seq<Document>) {
    forall d, e :: d in docs && e in docs && d.name == e.name ==> d == e
  }

  lemma {:induction false} SelectFieldMeaning(docs: seq<Document>, path: string, op: Operator, target: Option<Value>)
    ensures forall d :: d in SelectField(docs, path, op, target) <==> d in docs && FieldMatches(d, path, op, target)
    ensures DistinctNames(docs) ==> DistinctNames(SelectField(docs, path, op, target))
  {
    hide FieldMatches;
    if docs != [] {
      SelectFieldMeaning(docs[1..], path, op, target);
      var rest := SelectField(docs[1..], path, op, target);
      assert forall d :: d in docs <==> d == docs[0] || d in docs[1..];
      if DistinctNames(docs) {
        assert forall d :: d in rest ==> d in docs[1..];
        assert forall i :: 0 <= i < |rest| ==> rest[i] in docs[1..];
      }
    }
  }

  lemma {:induction false} AddUnseenMeaning(acc: seq<Document>, matched: seq<Document>)
    requires NamesIdentify(acc + matched)
    ensures forall d :: d in AddUnseen(acc, matched) <==> d in acc || d in matched
    ensures DistinctNames(acc) ==> DistinctNames(AddUnseen(acc, matched))
    decreases matched
  {
    if matched != [] {
      var d := matched[0];
      var next := if d.name in Names(acc) then acc else acc + [d];
      assert forall e :: e in acc + matched <==> e in acc || e == d || e in matched[1..];
      assert d in acc + matched;
      assert d in next by {
        if d.name in Names(acc) {
          var e :| e in acc && e.name == d.name;
          assert e in acc + matched;
        }
      }
      assert forall e :: e in next + matched[1..] ==> e in acc + matched;
      assert DistinctNames(acc) && d.name !in Names(acc) ==> DistinctNames(acc + [d]);
      AddUnseenMeaning(next, matched[1..]);
    }
  }

  /** A document is in the output exactly when it is in the input and the tree, read as a Boolean
    formula, is true of it; and the output repeats no name that the input does not repeat. */
  lemma {:induction false} FilteredMeansHolds(docs: seq<Document>, f: Filter)
    requires NamesIdentify(docs)
    ensures forall d :: d in Filtered(docs, f) <==> d in docs && Holds(f, d)
    ensures DistinctNames(docs) ==> DistinctNames(Filtered(docs, f))
    decreases f, 1
  {
    match f {
      case FieldFilter(path, op, target) => SelectFieldMeaning(docs, path, op, target);
      case CompositeFilter(And, filters) => InTurnMeansAll(docs, filters);
      case CompositeFilter(Or, filters) => UnionMeansAny(docs, filters, []);
      case CompositeFilter(UnspecifiedConnective, _) =>
      case OtherFilter =>
    }
  }

  lemma {:induction false} InTurnMeansAll(docs: seq<Document>, filters: seq<Filter>)
    requires NamesIdentify(docs)
    ensures forall d :: d in FilteredInTurn(docs, filters) <==>
                          d in docs && forall g :: g in filters ==> Holds(g, d)
    ensures DistinctNames(docs) ==> DistinctNames(FilteredInTurn(docs, filters))
    decreases filters, 0
  {
    if filters != [] {
      FilteredMeansHolds(docs, filters[0]);
      var first := Filtered(docs, filters[0]);
      InTurnMeansAll(first, filters[1..]);
      assert FilteredInTurn(docs, filters) == FilteredInTurn(first, filters[1..]);
      forall d
        ensures (forall g :: g in filters ==> Holds(g, d))
           <==> Holds(filters[0], d) && forall g :: g in filters[1..] ==> Holds(g, d)
      {
        assert forall g :: g in filters <==> g == filters[0] || g in filters[1..];
      }
    }
  }

  lemma {:induction false} UnionMeansAny(docs: seq<Document>, filters: seq<Filter>, acc: seq<Document>)
    requires NamesIdentify(docs)
    requires DistinctNames(acc) && forall d :: d in acc ==> d in docs
    ensures forall d :: d in UnionFrom(docs, filters, acc) <==>
                          d in acc || (d in docs && exists g :: g in filters && Holds(g, d))
    ensures DistinctNames(UnionFrom(docs, filters, acc))
    decreases filters, 0
  {
    if filters != [] {
      FilteredMeansHolds(docs, filters[0]);
      AddUnseenMeaning(acc, Filtered(docs, filters[0]));
      var next := AddUnseen(acc, Filtered(docs, filters[0]));
      UnionMeansAny(docs, filters[1..], next);
      assert UnionFrom(docs, filters, acc) == UnionFrom(docs, filters[1..], next);
      forall d
        ensures (exists g :: g in filters && Holds(g, d))
           <==> Holds(filters[0], d) || exists g :: g in filters[1..] && Holds(g, d)
      {
        assert forall g :: g in filters <==> g == filters[0] || g in filters[1..];
      }
    }
  }

  // ---------- the order of a union ----------

  /** What each filter keeps, one after the other. */
  ghost function EachInTurn(docs: seq<Document>, filters: seq<Filter>): seq<Document> {
    if filters == [] then [] else Filtered(docs, filters[0]) + EachInTurn(docs, filters[1..])
  }

  /** The documents whose name has not occurred before. */
  function FirstOnly(s: seq<Document>): seq<Document> {
    if s == [] then []
    else
      var n := |s| - 1;
      FirstOnly(s[..n]) + if s[n].name in Names(s[..n]) then [] else [s[n]]
  }

  lemma {:induction false} FirstOnlyNames(s: seq<Document>)
    ensures Names(FirstOnly(s)) == Names(s)
  {
    if s != [] {
      var n := |s| - 1;
      FirstOnlyNames(s[..n]);
      assert s == s[..n] + [s[n]];
      NamesOfConcat(s[..n], [s[n]]);
      NamesOfConcat(FirstOnly(s[..n]), if s[n].name in Names(s[..n]) then [] else [s[n]]);
    }
  }

  lemma NamesOfConcat(a: seq<Document>, b: seq<Document>)
    ensures Names(a + b) == Names(a) + Names(b)
  {
    forall name | name in Names(a) + Names(b) ensures name in Names(a + b) {
      var d :| (d in a || d in b) && d.name == name;
      assert d in a + b;
    }
  }

  lemma FirstOnlyNext(s: seq<Document>, d: Document)
    ensures FirstOnly(s + [d]) == if d.name in Names(FirstOnly(s)) then FirstOnly(s) else FirstOnly(s) + [d]
  {
    FirstOnlyNames(s);
    assert (s + [d])[..|s|] == s;
  }

  lemma {:induction false} AddUnseenIsFirstOnly(s: seq<Document>, matched: seq<Document>)
    ensures AddUnseen(FirstOnly(s), matched) == FirstOnly(s + matched)
    decreases matched
  {
    hide FirstOnly, Names;
    if matched == [] {
      assert s + matched == s;
    } else {
      FirstOnlyNext(s, matched[0]);
      assert s + [matched[0]] + matched[1..] == s + matched;
      AddUnseenIsFirstOnly(s + [matched[0]], matched[1..]);
    }
  }

  lemma {:induction false} UnionFromIsFirstOnly(docs: seq<Document>, filters: seq<Filter>, s: seq<Document>)
    ensures UnionFrom(docs, filters, FirstOnly(s)) == FirstOnly(s + EachInTurn(docs, filters))
    decreases filters
  {
    hide FirstOnly, AddUnseen, Filtered;
    if filters == [] {
      assert s + [] == s;
    } else {
      var matched := Filtered(docs, filters[0]);
      AddUnseenIsFirstOnly(s, matched);
      UnionFromIsFirstOnly(docs, filters[1..], s + matched);
      assert s + matched + EachInTurn(docs, filters[1..]) == s + (matched + EachInTurn(docs, filters[1..]));
    }
  }

  /** OR lists what its filters keep one after the other, each name where it occurs first. */
  lemma {:induction false} OrKeepsFirstOccurrences(docs: seq<Document>, filters: seq<Filter>)
    ensures Filtered(docs, CompositeFilter(Or, filters)) == FirstOnly(EachInTurn(docs, filters))
  {
    hide *;
    FilteredOr(docs, filters);
    UnionFromIsFirstOnly(docs, filters, []);
    assert [] + EachInTurn(docs, filters) == EachInTurn(docs, filters);
  }

  lemma FilteredOr(docs: seq<Document>, filters: seq<Filter>)
    ensures Filtered(docs, CompositeFilter(Or, filters)) == UnionFrom(docs, filters, FirstOnly([]))
  {
    hide UnionFrom, Names;
  }

  // ---------- trees without OR keep the input order ----------

  ghost predicate WithoutOr(f: Filter) {
    f.CompositeFilter? ==> f.connective != Or && forall g :: g in f.filters ==> WithoutOr(g)
  }

  /** The documents satisfying `f`, in input order. */
  ghost function Keep(docs: seq<Document>, f: Filter): seq<Document> {
    if docs == [] then [] else (if Holds(f, docs[0]) then [docs[0]] else []) + Keep(docs[1..], f)
  }

  lemma {:induction false} SelectFieldKeeps(docs: seq<Document>, f: Filter)
    requires f.FieldFilter?
    ensures SelectField(docs, f.path, f.op, f.target) == Keep(docs, f)
  {
    if docs != [] { SelectFieldKeeps(docs[1..], f); }
  }

  lemma {:induction false} KeepAll(docs: seq<Document>, f: Filter)
    requires forall d :: d in docs ==> Holds(f, d)
    ensures Keep(docs, f) == docs
  {
    if docs != [] {
      KeepAll(docs[1..], f);
      assert docs == [docs[0]] + docs[1..];
    }
  }

  lemma {:induction false} KeepTwice(docs: seq<Document>, g: Filter, rest: Filter, both: Filter)
    requires forall d :: Holds(both, d) <==> Holds(g, d) && Holds(rest, d)
    ensures Keep(Keep(docs, g), rest) == Keep(docs, both)
  {
    hide Holds;
    if docs != [] {
      var kept := Keep(docs[1..], g);
      KeepTwice(docs[1..], g, rest, both);
      KeepCons(docs[0], kept, rest);
      assert Keep(docs, g) == if Holds(g, docs[0]) then [docs[0]] + kept else kept;
    }
  }

  lemma KeepCons(d: Document, docs: seq<Document>, f: Filter)
    ensures Keep([d] + docs, f) == (if Holds(f, d) then [d] else []) + Keep(docs, f)
  {
    assert ([d] + docs)[1..] == docs;
  }

  /** A tree of ANDs keeps the input order, whether or not names repeat. */
  lemma {:induction false} WithoutOrKeepsOrder(docs: seq<Document>, f: Filter)
    requires WithoutOr(f)
    ensures Filtered(docs, f) == Keep(docs, f)
    decreases f, 1
  {
    match f {
      case FieldFilter(_, _, _) => SelectFieldKeeps(docs, f);
      case CompositeFilter(And, filters) => InTurnKeepsOrder(docs, filters);
      case CompositeFilter(UnspecifiedConnective, _) => KeepAll(docs, f);
      case OtherFilter => KeepAll(docs, f);
    }
  }

  lemma {:induction false} InTurnKeepsOrder(docs: seq<Document>, filters: seq<Filter>)
    requires forall g :: g in filters ==> WithoutOr(g)
    ensures FilteredInTurn(docs, filters) == Keep(docs, CompositeFilter(And, filters))
    decreases filters, 0
  {
    if filters == [] {
      KeepAll(docs, CompositeFilter(And, filters));
    } else {
      WithoutOrKeepsOrder(docs, filters[0]);
      InTurnKeepsOrder(Keep(docs, filters[0]), filters[1..]);
      assert forall g :: g in filters <==> g == filters[0] || g in filters[1..];
      KeepTwice(docs, filters[0], CompositeFilter(And, filters[1..]), CompositeFilter(And, filters));
    }
  }

  // ---------- comparison filters partition ----------

  /** Whatever the field and the operand - missing, NaN, mixed numbers - every document passes exactly
    one of the filters `<`, `=` and `>`. */
  lemma {:induction false} ComparisonsPartition(docs: seq<Document>, path: string, target: Option<Value>)
    ensures multiset(SelectField(docs, path, LessThan, target)) + multiset(SelectField(docs, path, Equal, target))
            + multiset(SelectField(docs, path, GreaterThan, target)) == multiset(docs)
  {
    if docs != [] {
      var d, rest := docs[0], docs[1..];
      ComparisonsPartition(rest, path, target);
      assert docs == [d] + rest;
      SelectFirst(d, rest, path, LessThan, target);
      SelectFirst(d, rest, path, Equal, target);
      SelectFirst(d, rest, path, GreaterThan, target);
      var l, e, g := FieldMatches(d, path, LessThan, target), FieldMatches(d, path, Equal, target),
                     FieldMatches(d, path, GreaterThan, target);
      Trichotomy(d, path, target);
      hide FieldMatches, SelectField;
      AddToOne(multiset(SelectField(rest, path, LessThan, target)), multiset(SelectField(rest, path, Equal, target)),
               multiset(SelectField(rest, path, GreaterThan, target)), d, l, e, g);
    }
  }

  lemma {:induction false} Trichotomy(d: Document, path: string, target: Option<Value>)
    ensures var l, e, g := FieldMatches(d, path, LessThan, target), FieldMatches(d, path, Equal, target),
                           FieldMatches(d, path, GreaterThan, target);
            (l && !e && !g) || (!l && e && !g) || (!l && !e && g)
  {
    hide Lookup, Split, Below, Tied;
    CompareDecides(Lookup(d.fields, Split(path)), target);
  }

  lemma AddToOne(less: multiset<Document>, equal: multiset<Document>, greater: multiset<Document>, d: Document,
                 l: bool, e: bool, g: bool)
    requires (l && !e && !g) || (!l && e && !g) || (!l && !e && g)
    ensures (less + if l then multiset{d} else multiset{}) + (equal + if e then multiset{d} else multiset{})
            + (greater + if g then multiset{d} else multiset{}) == multiset{d} + (less + equal + greater)
  {}

  lemma SelectFirst(d: Document, rest: seq<Document>, path: string, op: Operator, target: Option<Value>)
    ensures multiset(SelectField([d] + rest, path, op, target))
         == multiset(SelectField(rest, path, op, target))
            + (if FieldMatches(d, path, op, target) then multiset{d} else multiset{})
  {
    assert ([d] + rest)[1..] == rest;
  }

  // ---------- which documents a field filter keeps ----------

  /** The filter keeps the document when it is all there is to filter. */
  ghost predicate Keeps(d: Document, path: string, op: Operator, target: Option<Value>) {
    Filtered([d], FieldFilter(path, op, target)) == [d]
  }

  lemma {:induction false} KeepsMeansPasses(d: Document, path: string, op: Operator, target: Option<Value>)
    ensures Keeps(d, path, op, target) <==> Passes(Lookup(d.fields, Split(path)), op, target)
  {
    hide Passes, Lookup, Split;
    assert [d][1..] == [];
    assert SelectField([d], path, op, target) == (if FieldMatches(d, path, op, target) then [d] else []) + [];
  }

  /** A filter decides on each document by itself. */
  lemma {:induction false} EachByItself(docs: seq<Document>, path: string, op: Operator, target: Option<Value>)
    ensures forall d :: d in Filtered(docs, FieldFilter(path, op, target)) <==> d in docs && Keeps(d, path, op, target)
  {
    hide Passes, Lookup, Split, SelectField;
    SelectFieldMeaning(docs, path, op, target);
    forall d ensures Keeps(d, path, op, target) <==> FieldMatches(d, path, op, target) {
      KeepsMeansPasses(d, path, op, target);
    }
    hide Keeps;
  }

  /** The value that a path leads to. */
  ghost predicate HasAt(d: Document, path: string, v: Value) {
    exists trail :: LeadsTo(d.fields, Split(path), trail, v)
  }

  lemma {:induction false} ValueAt(d: Document, path: string, v: Value)
    requires HasAt(d, path, v)
    ensures Lookup(d.fields, Split(path)) == Some(v)
  {
    LookupFollowsThePath(d.fields, Split(path), v);
  }

  /** The six comparisons of a field that holds `v` with `target`, when `below` and `tied` say how the two
    are related. */
  ghost predicate Compares(d: Document, path: string, target: Value, below: bool, tied: bool) {
    && (Keeps(d, path, LessThan, Some(target)) <==> below)
    && (Keeps(d, path, Equal, Some(target)) <==> tied)
    && (Keeps(d, path, GreaterThan, Some(target)) <==> !below && !tied)
    && (Keeps(d, path, LessThanOrEqual, Some(target)) <==> below || tied)
    && (Keeps(d, path, GreaterThanOrEqual, Some(target)) <==> !below)
    && (Keeps(d, path, NotEqual, Some(target)) <==> !tied)
  }

  lemma {:induction false} ComparesAs(d: Document, path: string, v: Value, target: Value)
    requires HasAt(d, path, v)
    ensures Compares(d, path, target, Below(Some(v), Some(target)), Tied(Some(v), Some(target)))
  {
    hide Below, Tied, Lookup, Split, Keeps, HasAt;
    ValueAt(d, path, v);
    CompareDecides(Some(v), Some(target));
    forall op ensures Keeps(d, path, op, Some(target)) <==> Passes(Some(v), op, Some(target)) {
      KeepsMeansPasses(d, path, op, Some(target));
    }
  }

  /** Integers compare by size, up to a magnitude of 2^53. */
  lemma {:induction false} WhereIntegers(d: Document, path: string, i: int, j: int)
    requires HasAt(d, path, Integer(i)) && -P53 <= i <= P53 && -P53 <= j <= P53
    ensures Compares(d, path, Integer(j), i < j, i == j)
  {
    hide HasAt, Compares, Below, Tied;
    ComparesAs(d, path, Integer(i), Integer(j));
    IntegersBelow(i, j);
  }

  /** Strings compare in dictionary order. */
  lemma {:induction false} WhereStrings(d: Document, path: string, s: string, t: string)
    requires HasAt(d, path, Str(s))
    ensures Compares(d, path, Str(t), Before(s, t), s == t)
  {
    hide HasAt, Compares, Before;
    ComparesAs(d, path, Str(s), Str(t));
  }

  /** False comes before true. */
  lemma {:induction false} WhereBooleans(d: Document, path: string, b: bool, c: bool)
    requires HasAt(d, path, Boolean(b))
    ensures Compares(d, path, Boolean(c), !b && c, b == c)
  {
    hide HasAt, Compares;
    ComparesAs(d, path, Boolean(b), Boolean(c));
  }

  /** Moments compare chronologically. */
  lemma {:induction false} WhereTimestamps(d: Document, path: string, s: int, n: int, t: int, m: int)
    requires HasAt(d, path, Timestamp(s, n)) && 0 <= n < 1_000_000_000 && 0 <= m < 1_000_000_000
    ensures Compares(d, path, Timestamp(t, m), s * 1_000_000_000 + n < t * 1_000_000_000 + m, s == t && n == m)
  {
    hide HasAt, Compares;
    ComparesAs(d, path, Timestamp(s, n), Timestamp(t, m));
  }

  /** Values of different types compare by the rank of their types. */
  lemma {:induction false} WhereTypesDiffer(d: Document, path: string, v: Value, target: Value)
    requires HasAt(d, path, v) && TypeOrder(Some(v)) != TypeOrder(Some(target))
    ensures Compares(d, path, target, TypeOrder(Some(v)) < TypeOrder(Some(target)), false)
  {
    hide HasAt, Compares;
    ComparesAs(d, path, v, target);
  }

  /** A document without the field is below every value. */
  lemma {:induction false} WhereMissing(d: Document, path: string, target: Value)
    requires forall v :: !HasAt(d, path, v)
    ensures Compares(d, path, target, true, false)
  {
    hide Split, Keeps;
    forall v ensures Lookup(d.fields, Split(path)) != Some(v) {
      assert !HasAt(d, path, v);
      LookupFollowsThePath(d.fields, Split(path), v);
    }
    hide Lookup, HasAt;
    forall op ensures Keeps(d, path, op, Some(target)) <==> Passes(None, op, Some(target)) {
      KeepsMeansPasses(d, path, op, Some(target));
    }
  }

  /** IN keeps what some `=` to an element keeps, and NOT_IN the rest. ARRAY_CONTAINS keeps the documents
    whose array has an element that ties with the operand, ARRAY_CONTAINS_ANY those that some
    ARRAY_CONTAINS of an element keeps; an operator that is not set keeps none. */
  lemma {:induction false} WhereLists(d: Document, path: string, es: seq<Value>, t: Value)
    ensures Keeps(d, path, In, Some(Array(es))) <==> exists e :: e in es && Keeps(d, path, Equal, Some(e))
    ensures Keeps(d, path, NotIn, Some(Array(es))) <==> !Keeps(d, path, In, Some(Array(es)))
    ensures Keeps(d, path, ArrayContains, Some(t)) <==>
              exists elements, e :: HasAt(d, path, Array(elements)) && e in elements && Tied(Some(e), Some(t))
    ensures Keeps(d, path, ArrayContainsAny, Some(Array(es))) <==>
              exists e :: e in es && Keeps(d, path, ArrayContains, Some(e))
    ensures !Keeps(d, path, UnspecifiedOperator, Some(t))
    ensures !t.Array? ==> !Keeps(d, path, In, Some(t)) && Keeps(d, path, NotIn, Some(t))
                          && !Keeps(d, path, ArrayContainsAny, Some(t))
  {
    hide Split, Keeps, Lookup, Tied, HasAt;
    var v := Lookup(d.fields, Split(path));
    forall op, x ensures Keeps(d, path, op, x) <==> Passes(v, op, x) {
      KeepsMeansPasses(d, path, op, x);
    }
    ArraysAt(d, path, t, v);
  }

  lemma {:induction false} ArraysAt(d: Document, path: string, t: Value, v: Option<Value>)
    requires v == Lookup(d.fields, Split(path))
    ensures AmongTied(Some(t), v) <==>
              exists elements, e :: HasAt(d, path, Array(elements)) && e in elements && Tied(Some(e), Some(t))
  {
    hide Split, Lookup, Tied;
    forall elements ensures HasAt(d, path, Array(elements)) <==> v == Some(Array(elements)) {
      LookupFollowsThePath(d.fields, Split(path), Array(elements));
    }
    hide HasAt;
    forall e ensures Tied(Some(e), Some(t)) <==> Tied(Some(t), Some(e)) {
      CompareDecides(Some(e), Some(t));
      CompareDecides(Some(t), Some(e));
    }
    if AmongTied(Some(t), v) {
      var e :| e in v.value.elements && Tied(Some(t), Some(e));
      assert HasAt(d, path, Array(v.value.elements)) && Tied(Some(e), Some(t));
    }
  }
}
