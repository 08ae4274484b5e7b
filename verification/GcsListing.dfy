/** Listing object names by prefix and delimiter: which names a listing shows, and which it folds into
  pseudo-directories. */
module GcsListing {
  import opened Text

  function Rest(name: string, prefix: string): string
    requires HasPrefix(name, prefix)
  {
    name[|prefix|..]
  }

  /** The delimiter occurs after the prefix. */
  predicate Inside(name: string, prefix: string, delimiter: string) {
    HasPrefix(name, prefix) && delimiter != "" && Index(Rest(name, prefix), delimiter) >= 0
  }

  /** The listing shows the name itself. */
  predicate Shown(name: string, prefix: string, delimiter: string) {
    HasPrefix(name, prefix) && !Inside(name, prefix, delimiter)
  }

  /** The pseudo-directory that the listing shows instead of the name. */
  function CommonPrefix(name: string, prefix: string, delimiter: string): string
    requires Inside(name, prefix, delimiter)
  {
    prefix + Rest(name, prefix)[..Index(Rest(name, prefix), delimiter) + |delimiter|]
  }

  ghost function ShownNames(names: set<string>, prefix: string, delimiter: string): set<string> {
    set n | n in names && Shown(n, prefix, delimiter)
  }

  ghost function CommonPrefixes(names: set<string>, prefix: string, delimiter: string): set<string> {
    set n | n in names && Inside(n, prefix, delimiter) :: CommonPrefix(n, prefix, delimiter)
  }

  // ---------- what a listing shows of a name ----------

  ghost predicate Contains(s: string, d: string) {
    exists a, b :: s == a + d + b
  }

  lemma {:induction false} ContainsMeansOccurs(s: string, d: string)
    ensures Contains(s, d) <==> Index(s, d) >= 0
  {
    if Index(s, d) >= 0 {
      var i := Index(s, d);
      assert s == s[..i] + d + s[i + |d|..];
    }
    if a, b :| s == a + d + b {
      assert OccursAt(s, d, |a|) by { assert s[|a|..|a| + |d|] == d; }
    }
  }

  /** A listing shows the names that continue the prefix without the delimiter in what follows. */
  lemma {:induction false} ShownMeans(name: string, prefix: string, delimiter: string)
    ensures Shown(name, prefix, delimiter) <==>
              exists rest :: name == prefix + rest && (delimiter == "" || !Contains(rest, delimiter))
  {
    hide Index, Contains;
    if HasPrefix(name, prefix) {
      assert name == prefix + Rest(name, prefix);
      ContainsMeansOccurs(Rest(name, prefix), delimiter);
    }
    forall rest | name == prefix + rest ensures HasPrefix(name, prefix) && rest == Rest(name, prefix) {}
  }

  /** `p` is the prefix, `dir` and the delimiter; `name` goes on with `tail`; and the delimiter does not occur
    earlier behind the prefix. */
  ghost predicate CutAt(name: string, prefix: string, delimiter: string, p: string, dir: string, tail: string) {
    && p == prefix + (dir + delimiter) && name == prefix + (dir + delimiter + tail)
    && forall i :: OccursAt(dir + delimiter + tail, delimiter, i) ==> i >= |dir|
  }

  /** It folds the others into what leads up to the first delimiter behind the prefix, and includes it. */
  lemma {:induction false} FoldedMeans(name: string, prefix: string, delimiter: string, p: string)
    requires delimiter != ""
    ensures Inside(name, prefix, delimiter) && CommonPrefix(name, prefix, delimiter) == p <==>
              exists dir, tail :: CutAt(name, prefix, delimiter, p, dir, tail)
  {
    hide Index, CutAt;
    if Inside(name, prefix, delimiter) && CommonPrefix(name, prefix, delimiter) == p {
      CutsAtFirst(name, prefix, delimiter);
    }
    if dir, tail :| CutAt(name, prefix, delimiter, p, dir, tail) {
      CutIsFirst(name, prefix, delimiter, p, dir, tail);
    }
  }

  lemma {:induction false} CutsAtFirst(name: string, prefix: string, delimiter: string)
    requires Inside(name, prefix, delimiter)
    ensures var rest := Rest(name, prefix);
            var i := Index(rest, delimiter);
            CutAt(name, prefix, delimiter, CommonPrefix(name, prefix, delimiter), rest[..i], rest[i + |delimiter|..])
  {
    var rest := Rest(name, prefix);
    var i := Index(rest, delimiter);
    assert rest[..i] + delimiter + rest[i + |delimiter|..] == rest;
    assert rest[..i + |delimiter|] == rest[..i] + delimiter;
    assert name == prefix + rest;
  }

  lemma CutIsFirst(name: string, prefix: string, delimiter: string, p: string, dir: string, tail: string)
    requires delimiter != "" && CutAt(name, prefix, delimiter, p, dir, tail)
    ensures Inside(name, prefix, delimiter) && CommonPrefix(name, prefix, delimiter) == p
  {
    var rest := dir + delimiter + tail;
    assert HasPrefix(name, prefix) && Rest(name, prefix) == rest;
    assert OccursAt(rest, delimiter, |dir|);
    assert rest[..|dir| + |delimiter|] == dir + delimiter;
  }

  /** A pseudo-directory is longer than the prefix it was found under, and no longer than the name. */
  lemma {:induction false} PrefixesGrow(name: string, prefix: string, delimiter: string)
    requires Inside(name, prefix, delimiter)
    ensures var p := CommonPrefix(name, prefix, delimiter);
            |prefix| < |p| <= |name| && HasPrefix(p, prefix) && HasPrefix(name, p)
  {
    var rest := Rest(name, prefix);
    var i := Index(rest, delimiter);
    assert name == prefix + rest;
    assert name[..|prefix| + i + |delimiter|] == prefix + rest[..i + |delimiter|];
  }

  lemma OccurrenceInPrefix(s: string, t: string, d: string, j: int)
    requires HasPrefix(t, s) && OccursAt(s, d, j)
    ensures OccursAt(t, d, j)
  {
    assert t[j..j + |d|] == t[..|s|][j..j + |d|];
  }

  lemma OccurrenceInWhole(s: string, t: string, d: string, j: int)
    requires HasPrefix(t, s) && OccursAt(t, d, j) && j + |d| <= |s|
    ensures OccursAt(s, d, j)
  {
    assert s[j..j + |d|] == t[..|s|][j..j + |d|] == t[j..j + |d|];
  }

  /** Up to the first occurrence of the delimiter, two strings that agree have it in the same place. */
  lemma SameFirst(s: string, t: string, d: string)
    requires Index(s, d) >= 0 && HasPrefix(t, s[..Index(s, d) + |d|])
    ensures Index(t, d) == Index(s, d)
  {
    var i := Index(s, d);
    var head := s[..i + |d|];
    OccurrenceInWhole(head, s, d, i);
    OccurrenceInPrefix(head, t, d, i);
    var j := Index(t, d);
    assert 0 <= j <= i;
    OccurrenceInWhole(head, t, d, j);
    OccurrenceInPrefix(head, s, d, j);
  }

  /** The names under a listed pseudo-directory are exactly those that the listing folded into it. */
  lemma {:induction false} UnderCommonPrefix(name: string, other: string, prefix: string, delimiter: string)
    requires Inside(other, prefix, delimiter)
    ensures HasPrefix(name, CommonPrefix(other, prefix, delimiter)) <==>
            Inside(name, prefix, delimiter) && CommonPrefix(name, prefix, delimiter) == CommonPrefix(other, prefix, delimiter)
  {
    var p := CommonPrefix(other, prefix, delimiter);
    var rest := Rest(other, prefix);
    var head := rest[..Index(rest, delimiter) + |delimiter|];
    PrefixesGrow(other, prefix, delimiter);
    if HasPrefix(name, p) {
      assert name[..|prefix|] == name[..|p|][..|prefix|] == prefix;
      assert Rest(name, prefix)[..|head|] == name[..|p|][|prefix|..] == head;
      SameFirst(rest, Rest(name, prefix), delimiter);
    }
    if Inside(name, prefix, delimiter) && CommonPrefix(name, prefix, delimiter) == p {
      PrefixesGrow(name, prefix, delimiter);
    }
  }

  /** None of the pseudo-directories of one listing is a prefix of another. */
  lemma {:induction false} SiblingsApart(names: set<string>, prefix: string, delimiter: string, p: string, q: string)
    requires p in CommonPrefixes(names, prefix, delimiter) && q in CommonPrefixes(names, prefix, delimiter)
    ensures HasPrefix(q, p) ==> p == q
  {
    var m :| m in names && Inside(m, prefix, delimiter) && CommonPrefix(m, prefix, delimiter) == p;
    var n :| n in names && Inside(n, prefix, delimiter) && CommonPrefix(n, prefix, delimiter) == q;
    if HasPrefix(q, p) {
      PrefixesGrow(n, prefix, delimiter);
      assert n[..|p|] == n[..|q|][..|p|];
      UnderCommonPrefix(n, m, prefix, delimiter);
    }
  }

  /** Each name under the prefix is shown, or is under exactly one listed pseudo-directory. */
  lemma {:induction false} ListingPartitions(names: set<string>, prefix: string, delimiter: string, name: string)
    requires name in names && HasPrefix(name, prefix)
    ensures var ps := CommonPrefixes(names, prefix, delimiter);
            && (Shown(name, prefix, delimiter) <==> forall p :: p in ps ==> !HasPrefix(name, p))
            && forall p, q :: p in ps && q in ps ==> HasPrefix(name, p) && HasPrefix(name, q) ==> p == q
  {
    var ps := CommonPrefixes(names, prefix, delimiter);
    forall p | p in ps && HasPrefix(name, p)
      ensures Inside(name, prefix, delimiter) && CommonPrefix(name, prefix, delimiter) == p
    {
      var m :| m in names && Inside(m, prefix, delimiter) && CommonPrefix(m, prefix, delimiter) == p;
      UnderCommonPrefix(name, m, prefix, delimiter);
    }
    if Inside(name, prefix, delimiter) {
      PrefixesGrow(name, prefix, delimiter);
      assert CommonPrefix(name, prefix, delimiter) in ps;
    }
  }
}
