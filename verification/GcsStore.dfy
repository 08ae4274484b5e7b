/** The Cloud Storage store: objects in buckets, their listing, and the recursive walk that a client makes
  over pseudo-directories. */
module GcsStore {
  import opened Wrappers
  import opened Text
  import opened GcsListing

  datatype Bucket = Bucket(name: string, timeCreated: int, updated: int, etag: string)

  datatype Object = Object(id: string, name: string, bucket: string, size: string, contentType: string,
                           timeCreated: int, updated: int, md5Hash: string, etag: string)

  datatype StoredObject = StoredObject(meta: Object, content: string)

  type Objects = map<string, StoredObject>

  class Store {
    /** The digests of a content that an object carries. */
    const md5Of: string -> string
    const etagOf: string -> string

    var buckets: map<string, Bucket>
    var objects: map<string, Objects>

    /** The metadata tell the truth about the name and the content. */
    predicate Describes(meta: Object, bucket: string, name: string, content: string) {
      && meta.name == name && meta.bucket == bucket && meta.id == bucket + "/" + name
      && meta.size == Decimal(|content|) && meta.md5Hash == md5Of(content) && meta.etag == etagOf(content)
      && meta.contentType != ""
    }

    /** Every bucket has its objects, and no others have any; an object is stored under its name, and its
      metadata are true of it. */
    ghost predicate Valid()
      reads this
    {
      && buckets.Keys == objects.Keys
      && (forall b :: b in buckets ==> buckets[b].name == b)
      && forall b, n :: b in objects && n in objects[b] ==> Describes(objects[b][n].meta, b, n, objects[b][n].content)
    }

    constructor (md5Of: string -> string, etagOf: string -> string)
      ensures Valid() && buckets == map[] && this.md5Of == md5Of && this.etagOf == etagOf
    {
      this.md5Of, this.etagOf := md5Of, etagOf;
      buckets, objects := map[], map[];
    }

    method CreateBucket(name: string, now: int, etag: string) returns (r: Result<Bucket>)
      requires Valid()
      modifies this
      ensures Valid()
      ensures if name in old(buckets) then r == AlreadyExists && buckets == old(buckets) && objects == old(objects)
              else
                && r == Ok(Bucket(name, now, now, etag))
                && buckets == old(buckets)[name := r.value] && objects == old(objects)[name := map[]]
    {
      if name in buckets { return AlreadyExists; }
      var b := Bucket(name, now, now, etag);
      buckets, objects := buckets[name := b], objects[name := map[]];
      r := Ok(b);
    }

    /** Deletes a bucket, unless it holds an object. */
    method DeleteBucket(name: string) returns (r: Result<()>)
      requires Valid()
      modifies this
      ensures Valid()
      ensures r == if name !in old(buckets) then NotFound
                   else if old(objects)[name] != map[] then FailedPrecondition else Ok(())
      ensures objects == if r.Ok? then old(objects) - {name} else old(objects)
      ensures buckets == if r.Ok? then old(buckets) - {name} else old(buckets)
    {
      if name !in buckets { return NotFound; }
      if name in objects && |objects[name]| > 0 { return FailedPrecondition; }
      buckets, objects := buckets - {name}, objects - {name};
      r := Ok(());
    }

    method PutObject(bucket: string, name: string, contentType: string, content: string, now: int)
      returns (r: Result<Object>)
      requires Valid()
      modifies this`objects
      ensures Valid()
      ensures if bucket !in buckets then r == NotFound && objects == old(objects)
              else
                && r.Ok? && Describes(r.value, bucket, name, content)
                && r.value.contentType == (if contentType == "" then "application/octet-stream" else contentType)
                && r.value.timeCreated == r.value.updated == now
                && objects == old(objects)[bucket := old(objects)[bucket][name := StoredObject(r.value, content)]]
    {
      if bucket !in buckets { return NotFound; }
      var kind := contentType;
      if kind == "" {
        kind := "application/octet-stream";
      }
      var o := Object(bucket + "/" + name, name, bucket, Decimal(|content|), kind, now, now, md5Of(content), etagOf(content));
      objects := objects[bucket := objects[bucket][name := StoredObject(o, content)]];
      r := Ok(o);
    }

    method DeleteObject(bucket: string, name: string) returns (r: Result<()>)
      requires Valid()
      modifies this`objects
      ensures Valid()
      ensures r == if bucket in old(objects) && name in old(objects)[bucket] then Ok(()) else NotFound
      ensures objects == if r.Ok? then old(objects)[bucket := old(objects)[bucket] - {name}] else old(objects)
    {
      if bucket !in objects { return NotFound; }
      if name !in objects[bucket] { return NotFound; }
      objects := objects[bucket := objects[bucket] - {name}];
      r := Ok(());
    }

    /** Copies an object, content and all; every check comes before any change. */
    method CopyObject(srcBucket: string, srcName: string, dstBucket: string, dstName: string, now: int)
      returns (r: Result<Object>)
      requires Valid()
      modifies this`objects
      ensures Valid()
      ensures if dstBucket in buckets && srcBucket in old(objects) && srcName in old(objects)[srcBucket] then
                var src := old(objects)[srcBucket][srcName];
                && r.Ok? && Describes(r.value, dstBucket, dstName, src.content)
                && r.value.contentType == src.meta.contentType && r.value.timeCreated == r.value.updated == now
                && objects == old(objects)[dstBucket := old(objects)[dstBucket][dstName := StoredObject(r.value, src.content)]]
              else r == NotFound && objects == old(objects)
    {
      if dstBucket !in buckets { return NotFound; }
      if srcBucket !in objects { return NotFound; }
      if srcName !in objects[srcBucket] { return NotFound; }
      var src := objects[srcBucket][srcName];
      var o := src.meta.(id := dstBucket + "/" + dstName, name := dstName, bucket := dstBucket, timeCreated := now,
                         updated := now);
      objects := objects[dstBucket := objects[dstBucket][dstName := StoredObject(o, src.content)]];
      r := Ok(o);
    }

    // ----- listing -----

    /** The metadata of the names, in that order. */
    static function MetaOf(objects: Objects, names: seq<string>): seq<Object>
      requires forall n :: n in names ==> n in objects
    {
      seq(|names|, i requires 0 <= i < |names| => objects[names[i]].meta)
    }

    /** Lists the names under a prefix, folding those that continue past a delimiter into pseudo-directories.
      The limit counts the items alone. */
    method ListObjects(bucket: string, prefix: string, delimiter: string, maxResults: int)
      returns (items: seq<Object>, prefixes: seq<string>)
      requires Valid()
      ensures bucket !in objects ==> items == [] && prefixes == []
      ensures bucket in objects ==>
                var names := objects[bucket].Keys;
                var all := MetaOf(objects[bucket], Ascending(ShownNames(names, prefix, delimiter)));
                && items <= all && |items| == (if 0 < maxResults < |all| then maxResults else |all|)
                && prefixes == Ascending(CommonPrefixes(names, prefix, delimiter))
    {
      hide ShownNames, CommonPrefixes, Ascending, Store.MetaOf;
      if bucket !in objects { return [], []; }
      var shown, prefixSet := Classify(objects[bucket].Keys, prefix, delimiter);
      var names := SortStrings(shown);
      ShownAreNames(objects[bucket], prefix, delimiter);
      items := [];
      MetaOfNone(objects[bucket], names);
      for i := 0 to |names|
        invariant items == MetaOf(objects[bucket], names[..i])
      {
        MetaOfNext(objects[bucket], names, i);
        items := items + [objects[bucket][names[i]].meta];
      }
      if maxResults > 0 && |items| > maxResults {
        items := items[..maxResults];
      }
      prefixes := SortStrings(prefixSet);
    }

    static lemma ShownAreNames(objects: Objects, prefix: string, delimiter: string)
      ensures forall n :: n in Ascending(ShownNames(objects.Keys, prefix, delimiter)) ==> n in objects
    {}

    static lemma MetaOfNone(objects: Objects, names: seq<string>)
      requires forall n :: n in names ==> n in objects
      ensures MetaOf(objects, names[..0]) == [] && names[..|names|] == names
    {}

    static lemma MetaOfNext(objects: Objects, names: seq<string>, i: nat)
      requires i < |names| && forall n :: n in names ==> n in objects
      ensures MetaOf(objects, names[..i + 1]) == MetaOf(objects, names[..i]) + [objects[names[i]].meta]
    {}

    static method Classify(names: set<string>, prefix: string, delimiter: string)
      returns (shown: set<string>, prefixSet: set<string>)
      ensures shown == ShownNames(names, prefix, delimiter)
      ensures prefixSet == CommonPrefixes(names, prefix, delimiter)
    {
      hide ShownNames, CommonPrefixes;
      shown, prefixSet := {}, {};
      var todo := names;
      ClassifyNone(names, prefix, delimiter);
      while todo != {}
        invariant todo <= names
        invariant shown == ShownNames(names - todo, prefix, delimiter)
        invariant prefixSet == CommonPrefixes(names - todo, prefix, delimiter)
        decreases |todo|
      {
        var name := AnyOf(todo);
        ClassifyOne(names, todo, prefix, delimiter, name);
        todo := todo - {name};
        if prefix != "" && !HasPrefix(name, prefix) { continue; }
        if delimiter != "" {
          var rest := name[|prefix|..];
          var i := Index(rest, delimiter);
          if i >= 0 {
            prefixSet := prefixSet + {prefix + rest[..i + |delimiter|]};
            continue;
          }
        }
        shown := shown + {name};
      }
    }

    static lemma ClassifyNone(names: set<string>, prefix: string, delimiter: string)
      ensures ShownNames(names - names, prefix, delimiter) == {} && CommonPrefixes(names - names, prefix, delimiter) == {}
      ensures names - {} == names
    {}

    static lemma ClassifyOne(names: set<string>, todo: set<string>, prefix: string, delimiter: string, name: string)
      requires name in todo && todo <= names
      ensures ShownNames(names - (todo - {name}), prefix, delimiter) ==
              ShownNames(names - todo, prefix, delimiter) + if Shown(name, prefix, delimiter) then {name} else {}
      ensures CommonPrefixes(names - (todo - {name}), prefix, delimiter) ==
              CommonPrefixes(names - todo, prefix, delimiter) +
              if Inside(name, prefix, delimiter) then {CommonPrefix(name, prefix, delimiter)} else {}
    {
      hide CommonPrefix, Shown, Inside;
      assert names - (todo - {name}) == names - todo + {name};
      CommonPrefixesWith(names - todo, prefix, delimiter, name);
    }

    static lemma CommonPrefixesWith(names: set<string>, prefix: string, delimiter: string, name: string)
      ensures CommonPrefixes(names + {name}, prefix, delimiter) ==
              CommonPrefixes(names, prefix, delimiter) +
              if Inside(name, prefix, delimiter) then {CommonPrefix(name, prefix, delimiter)} else {}
    {
      hide CommonPrefix, Inside;
      var before, after := CommonPrefixes(names, prefix, delimiter), CommonPrefixes(names + {name}, prefix, delimiter);
      forall p | p in before ensures p in after {
        var n :| n in names && Inside(n, prefix, delimiter) && CommonPrefix(n, prefix, delimiter) == p;
        assert n in names + {name};
      }
      if Inside(name, prefix, delimiter) {
        assert name in names + {name} && CommonPrefix(name, prefix, delimiter) in after;
      }
    }

    // ----- walking -----

    /** Lists a prefix, and then in the same way every pseudo-directory found under it. Each object under the
      prefix is visited once, and no other. */
    method Walk(bucket: string, prefix: string, delimiter: string) returns (visited: seq<string>)
      requires Valid() && bucket in objects && delimiter != ""
      ensures Once(visited, set n | n in objects[bucket] && HasPrefix(n, prefix))
    {
      ghost var depth := LongestName(objects[bucket].Keys);
      visited := WalkBelow(bucket, prefix, delimiter, depth);
    }

    /** The walk ends because no name under the prefix is more than `depth` longer than it. */
    method WalkBelow(bucket: string, prefix: string, delimiter: string, ghost depth: nat) returns (visited: seq<string>)
      requires Valid() && bucket in objects && delimiter != ""
      requires forall n :: n in objects[bucket] ==> |n| <= |prefix| + depth
      ensures Once(visited, set n | n in objects[bucket] && HasPrefix(n, prefix))
      decreases depth
    {
      hide Once, Covered, CommonPrefixes, ShownNames, Ascending, HasPrefix;
      var items, prefixes := ListObjects(bucket, prefix, delimiter, 0);
      ghost var names := objects[bucket].Keys;
      ShownAreNames(objects[bucket], prefix, delimiter);
      visited := NamesOf(items, bucket, Ascending(ShownNames(names, prefix, delimiter)));
      ShownOnce(names, prefix, delimiter, prefixes);
      for i := 0 to |prefixes|
        invariant Once(visited, Covered(names, prefix, delimiter, prefixes[..i]))
      {
        ListedPrefix(names, prefix, delimiter, prefixes, i, depth);
        var below := WalkBelow(bucket, prefixes[i], delimiter, depth - 1);
        CoverNext(names, prefix, delimiter, prefixes, i, visited, below);
        visited := visited + below;
      }
      AllCovered(names, prefix, delimiter, prefixes);
    }

    method NamesOf(items: seq<Object>, bucket: string, ghost names: seq<string>) returns (r: seq<string>)
      requires Valid() && bucket in objects && (forall n :: n in names ==> n in objects[bucket])
      requires items == MetaOf(objects[bucket], names)
      ensures r == names
    {
      r := [];
      for i := 0 to |items|
        invariant r == names[..i]
      {
        assert names[i] in names;
        r := r + [items[i].name];
      }
    }
  }

  ghost function LongestName(names: set<string>): (length: nat)
    ensures forall n :: n in names ==> |n| <= length
  {
    if names == {} then 0
    else
      var n :| n in names;
      var rest := LongestName(names - {n});
      if rest < |n| then |n| else rest
  }

  /** The names under the prefix that the listing shows, or folds into one of `done`. */
  ghost function Covered(names: set<string>, prefix: string, delimiter: string, done: seq<string>): set<string> {
    set n | n in names && HasPrefix(n, prefix) &&
            (Inside(n, prefix, delimiter) ==> CommonPrefix(n, prefix, delimiter) in done)
  }

  lemma ShownOnce(names: set<string>, prefix: string, delimiter: string, prefixes: seq<string>)
    ensures Once(Ascending(ShownNames(names, prefix, delimiter)), Covered(names, prefix, delimiter, prefixes[..0]))
  {
    hide CommonPrefix, Inside, HasPrefix;
    AscendingOnce(Ascending(ShownNames(names, prefix, delimiter)));
  }

  lemma ListedPrefix(names: set<string>, prefix: string, delimiter: string, prefixes: seq<string>, i: nat, depth: nat)
    requires prefixes == Ascending(CommonPrefixes(names, prefix, delimiter)) && i < |prefixes|
    requires forall n :: n in names ==> |n| <= |prefix| + depth
    ensures depth > 0 && forall n :: n in names ==> |n| <= |prefixes[i]| + depth - 1
  {
    hide HasPrefix;
    assert prefixes[i] in prefixes;
    var n :| n in names && Inside(n, prefix, delimiter) && CommonPrefix(n, prefix, delimiter) == prefixes[i];
    PrefixesGrow(n, prefix, delimiter);
  }

  lemma CoverNext(names: set<string>, prefix: string, delimiter: string, prefixes: seq<string>, i: nat,
                  visited: seq<string>,
                  below: seq<string>)
    requires prefixes == Ascending(CommonPrefixes(names, prefix, delimiter)) && i < |prefixes|
    requires Once(visited, Covered(names, prefix, delimiter, prefixes[..i]))
    requires Once(below, set n | n in names && HasPrefix(n, prefixes[i]))
    ensures Once(visited + below, Covered(names, prefix, delimiter, prefixes[..i + 1]))
  {
    hide *;
    CoveredNext(names, prefix, delimiter, prefixes, i);
    OnceConcat(visited, below, Covered(names, prefix, delimiter, prefixes[..i]),
               set n | n in names && HasPrefix(n, prefixes[i]));
  }

  lemma OnceConcat(r: seq<string>, q: seq<string>, s: set<string>, t: set<string>)
    requires Once(r, s) && Once(q, t) && s !! t
    ensures Once(r + q, s + t)
  {}

  lemma {:induction false} CoveredNext(names: set<string>, prefix: string, delimiter: string, prefixes: seq<string>, i: nat)
    requires prefixes == Ascending(CommonPrefixes(names, prefix, delimiter)) && i < |prefixes|
    ensures var before := Covered(names, prefix, delimiter, prefixes[..i]);
            var now := set n | n in names && HasPrefix(n, prefixes[i]);
            before !! now && Covered(names, prefix, delimiter, prefixes[..i + 1]) == before + now
  {
    hide HasPrefix, CommonPrefix, CommonPrefixes, Ascending, Inside;
    ListedOnce(names, prefix, delimiter, prefixes, i);
    assert prefixes[..i + 1] == prefixes[..i] + [prefixes[i]];
  }

  /** What is under a listed pseudo-directory was folded into it, and into none before it. */
  lemma ListedOnce(names: set<string>, prefix: string, delimiter: string, prefixes: seq<string>, i: nat)
    requires prefixes == Ascending(CommonPrefixes(names, prefix, delimiter)) && i < |prefixes|
    ensures prefixes[i] !in prefixes[..i]
    ensures forall n :: HasPrefix(n, prefixes[i]) <==>
                          Inside(n, prefix, delimiter) && CommonPrefix(n, prefix, delimiter) == prefixes[i]
    ensures forall n :: HasPrefix(n, prefixes[i]) ==> HasPrefix(n, prefix)
  {
    hide HasPrefix, CommonPrefix;
    assert prefixes[i] in prefixes;
    CompareAntisymmetric(prefixes[i], prefixes[i]);
    var other :| other in names && Inside(other, prefix, delimiter) && CommonPrefix(other, prefix, delimiter) == prefixes[i];
    forall n ensures HasPrefix(n, prefixes[i]) <==>
                       Inside(n, prefix, delimiter) && CommonPrefix(n, prefix, delimiter) == prefixes[i] {
      UnderCommonPrefix(n, other, prefix, delimiter);
    }
  }

  lemma AllCovered(names: set<string>, prefix: string, delimiter: string, prefixes: seq<string>)
    requires prefixes == Ascending(CommonPrefixes(names, prefix, delimiter))
    ensures Covered(names, prefix, delimiter, prefixes[..|prefixes|]) == set n | n in names && HasPrefix(n, prefix)
  {
    hide HasPrefix, CommonPrefix;
    assert prefixes[..|prefixes|] == prefixes;
    forall n | n in names && Inside(n, prefix, delimiter) ensures CommonPrefix(n, prefix, delimiter) in prefixes {
      assert CommonPrefix(n, prefix, delimiter) in CommonPrefixes(names, prefix, delimiter);
    }
  }
}
