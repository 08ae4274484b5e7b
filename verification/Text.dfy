/** Byte strings: the lexicographic order, prefixes, substring search, decimal numerals.

  A Go `string` and a Go `[]byte` are both byte sequences, and both are a `string` here, one
  character per byte. */
module Text {

  // ---------- lexicographic order ----------

  /** The sign of `a - b` in byte-wise lexicographic order, as `strings.Compare` returns it. */
  function Compare(a: string, b: string): (c: int)
    ensures -1 <= c <= 1
  {
    if a == [] then (if b == [] then 0 else -1)
    else if b == [] then 1
    else if a[0] < b[0] then -1
    else if b[0] < a[0] then 1
    else Compare(a[1..], b[1..])
  }

  lemma {:induction false} CompareAntisymmetric(a: string, b: string)
    ensures Compare(a, b) == -Compare(b, a)
    ensures Compare(a, b) == 0 <==> a == b
  {
    if a != [] && b != [] {
      CompareAntisymmetric(a[1..], b[1..]);
      assert a == [a[0]] + a[1..] && b == [b[0]] + b[1..];
    }
  }

  lemma {:induction false} CompareTransitive(a: string, b: string, c: string)
    requires Compare(a, b) <= 0 && Compare(b, c) <= 0
    ensures Compare(a, c) <= 0
    ensures Compare(a, c) == 0 ==> Compare(a, b) == 0 && Compare(b, c) == 0
  {
    if a != [] && b != [] && c != [] {
      if a[0] == b[0] == c[0] {
        CompareTransitive(a[1..], b[1..], c[1..]);
      }
    }
  }

  /** `a` comes before `b` in a dictionary over bytes: it is a proper beginning of `b`, or the first byte
    in which they differ is less in `a`. */
  ghost predicate Before(a: string, b: string) {
    exists k :: DifferAt(a, b, k)
  }

  predicate DifferAt(a: string, b: string, k: int) {
    && 0 <= k <= |a| && k < |b| && a[..k] == b[..k]
    && (k == |a| || a[k] < b[k])
  }

  lemma {:induction false} CompareMeansBefore(a: string, b: string)
    ensures Compare(a, b) < 0 <==> Before(a, b)
  {
    if a != [] && b != [] && a[0] == b[0] {
      CompareMeansBefore(a[1..], b[1..]);
      if k :| DifferAt(a[1..], b[1..], k) {
        assert a[..k + 1] == [a[0]] + a[1..][..k] && b[..k + 1] == [b[0]] + b[1..][..k];
        assert DifferAt(a, b, k + 1);
      }
      if k :| DifferAt(a, b, k) {
        assert k > 0;
        assert a[1..][..k - 1] == a[..k][1..] && b[1..][..k - 1] == b[..k][1..];
        assert DifferAt(a[1..], b[1..], k - 1);
      }
    } else {
      if k :| DifferAt(a, b, k) { SameStart(a, b, k); }
      if Compare(a, b) < 0 { assert DifferAt(a, b, 0); }
    }
  }

  lemma SameStart(a: string, b: string, k: int)
    requires DifferAt(a, b, k)
    ensures k > 0 ==> a[0] == b[0]
  {
    assert k > 0 ==> a[..k][0] == a[0] && b[..k][0] == b[0];
  }

  /** The sign that a comparison returns is that of the dictionary order. */
  lemma {:induction false} CompareIsLexicographic(a: string, b: string)
    ensures Compare(a, b) == if Before(a, b) then -1 else if Before(b, a) then 1 else 0
    ensures Before(a, b) ==> a != b && !Before(b, a)
    ensures Before(a, b) || Before(b, a) || a == b
  {
    hide Before, Compare;
    CompareMeansBefore(a, b);
    CompareMeansBefore(b, a);
    CompareAntisymmetric(a, b);
  }

  // ---------- sorted listings of a set ----------

  ghost predicate IsAscending(s: seq<string>) {
    forall i, j :: 0 <= i < j < |s| ==> Compare(s[i], s[j]) < 0
  }

  ghost predicate IsLeast(m: string, s: set<string>) {
    m in s && forall x :: x in s ==> Compare(m, x) <= 0
  }

  lemma {:induction false} LeastExists(s: set<string>)
    requires s != {}
    ensures exists m :: IsLeast(m, s)
  {
    var x :| x in s;
    if s == {x} {
      CompareAntisymmetric(x, x);
      assert IsLeast(x, s);
    } else {
      LeastExists(s - {x});
      var m :| IsLeast(m, s - {x});
      CompareAntisymmetric(m, x);
      CompareAntisymmetric(x, x);
      if Compare(m, x) <= 0 {
        assert IsLeast(m, s);
      } else {
        forall y | y in s ensures Compare(x, y) <= 0 {
          if y != x { CompareTransitive(x, m, y); }
        }
        assert IsLeast(x, s);
      }
    }
  }

  /** The elements of `s` in strictly ascending order: what `sort.Strings` makes of any
    enumeration of a set of distinct strings. */
  ghost function Ascending(s: set<string>): (r: seq<string>)
    ensures IsAscending(r)
    ensures forall x :: x in r <==> x in s
    ensures |r| == |s|
  {
    if s == {} then [] else
      LeastExists(s);
      var m :| IsLeast(m, s);
      var rest := Ascending(s - {m});
      AscendingCons(s, m, rest);
      [m] + rest
  }

  lemma AscendingCons(s: set<string>, m: string, rest: seq<string>)
    requires IsLeast(m, s) && IsAscending(rest) && |rest| == |s - {m}| && forall x :: x in rest <==> x in s - {m}
    ensures IsAscending([m] + rest) && |[m] + rest| == |s|
    ensures forall x :: x in [m] + rest <==> x in s
  {
    hide Compare;
    forall x | x in rest ensures Compare(m, x) < 0 { CompareAntisymmetric(m, x); }
  }

  /** Two ascending sequences with the same elements are the same sequence, so the order in which
    a map is enumerated leaves no trace once its keys are sorted. */
  lemma {:induction false} AscendingUnique(r: seq<string>, q: seq<string>)
    requires IsAscending(r) && IsAscending(q)
    requires forall x :: x in r <==> x in q
    ensures r == q
  {
    assert r != [] ==> r[0] in q;
    assert q != [] ==> q[0] in r;
    if r != [] {
      assert r[0] == q[0] by {
        assert r[0] in q && q[0] in r;
        CompareAntisymmetric(r[0], q[0]);
      }
      forall x ensures x in r[1..] <==> x in q[1..] {
        CompareAntisymmetric(r[0], r[0]);
        assert x in r <==> x == r[0] || x in r[1..];
        assert x in q <==> x == q[0] || x in q[1..];
      }
      AscendingUnique(r[1..], q[1..]);
    }
  }

  ghost predicate Once(s: seq<string>, names: set<string>) {
    forall x :: multiset(s)[x] == if x in names then 1 else 0
  }

  lemma {:induction false} AscendingOnce(r: seq<string>)
    requires IsAscending(r)
    ensures forall x :: multiset(r)[x] == if x in r then 1 else 0
  {
    if r != [] {
      AscendingOnce(r[1..]);
      assert r == [r[0]] + r[1..];
      CompareAntisymmetric(r[0], r[0]);
    }
  }

  /** Sorts a set of strings, by selecting the least one again and again. */
  method SortStrings(s: set<string>) returns (r: seq<string>)
    ensures r == Ascending(s)
  {
    r := [];
    var todo := s;
    while todo != {}
      invariant IsAscending(r) && todo <= s
      invariant forall x :: x in r <==> x in s - todo
      invariant forall x, y :: x in r && y in todo ==> Compare(x, y) < 0
      decreases |todo|
    {
      var least := LeastOf(todo);
      forall y | y in todo - {least} ensures Compare(least, y) < 0 { CompareAntisymmetric(least, y); }
      r, todo := r + [least], todo - {least};
    }
    AscendingUnique(r, Ascending(s));
  }

  method LeastOf(s: set<string>) returns (least: string)
    requires s != {}
    ensures IsLeast(least, s)
  {
    least :| least in s;
    var todo := s - {least};
    CompareAntisymmetric(least, least);
    while todo != {}
      invariant todo <= s && least in s
      invariant IsLeast(least, s - todo)
      decreases |todo|
    {
      var x :| x in todo;
      CompareAntisymmetric(least, x);
      CompareAntisymmetric(x, x);
      if Compare(x, least) < 0 {
        forall y | y in s - todo ensures Compare(x, y) <= 0 { CompareTransitive(x, least, y); }
        least := x;
      }
      todo := todo - {x};
    }
    assert s - todo == s;
  }

  // ---------- prefixes and substrings ----------

  /** `strings.HasPrefix(s, p)`. */
  predicate HasPrefix(s: string, p: string) {
    |p| <= |s| && s[..|p|] == p
  }

  predicate OccursAt(s: string, d: string, i: int) {
    0 <= i && i + |d| <= |s| && s[i..i + |d|] == d
  }

  /** `strings.Index(s, d)`: the least index at which `d` occurs in `s`, or -1. */
  function Index(s: string, d: string): (i: int)
    ensures i == -1 || OccursAt(s, d, i)
    ensures i == -1 ==> forall j :: !OccursAt(s, d, j)
    ensures i != -1 ==> forall j :: OccursAt(s, d, j) ==> i <= j
  {
    IndexFrom(s, d, 0)
  }

  function IndexFrom(s: string, d: string, k: nat): (i: int)
    requires k <= |s| + 1
    ensures i == -1 || (k <= i && OccursAt(s, d, i))
    ensures i == -1 ==> forall j :: k <= j ==> !OccursAt(s, d, j)
    ensures i != -1 ==> forall j :: k <= j && OccursAt(s, d, j) ==> i <= j
    decreases |s| + 1 - k
  {
    if |s| < k + |d| then -1
    else if OccursAt(s, d, k) then k
    else IndexFrom(s, d, k + 1)
  }

  // ---------- decimal numerals ----------

  function Digit(d: int): (c: char)
    requires 0 <= d < 10
    ensures '0' <= c <= '9'
  {
    '0' + d as char
  }

  /** `fmt.Sprintf("%d", n)`. */
  function Decimal(n: nat): (s: string)
    ensures s != []
    ensures forall c :: c in s ==> '0' <= c <= '9'
  {
    if n < 10 then [Digit(n)] else Decimal(n / 10) + [Digit(n % 10)]
  }

  /** The number that a row of decimal digits denotes. */
  function NumberOf(s: string): nat
    requires forall c :: c in s ==> '0' <= c <= '9'
  {
    if s == [] then 0
    else
      var front, last := s[..|s| - 1], s[|s| - 1];
      assert last in s && forall c :: c in front ==> c in s;
      10 * NumberOf(front) + (last - '0') as nat
  }

  /** A numeral denotes its number, and has no leading zero. */
  lemma {:induction false} DecimalDenotes(n: nat)
    ensures NumberOf(Decimal(n)) == n
    ensures n > 0 ==> Decimal(n)[0] != '0'
  {
    if n >= 10 {
      DecimalDenotes(n / 10);
      assert Decimal(n)[..|Decimal(n)| - 1] == Decimal(n / 10);
    }
  }

  lemma {:induction false} DecimalInjective(m: nat, n: nat)
    requires Decimal(m) == Decimal(n)
    ensures m == n
  {
    var s, t := Decimal(m), Decimal(n);
    assert s[|s| - 1] == Digit(m % 10) && t[|t| - 1] == Digit(n % 10);
    if m >= 10 && n >= 10 {
      assert Decimal(m / 10) == s[..|s| - 1] && Decimal(n / 10) == t[..|t| - 1];
      DecimalInjective(m / 10, n / 10);
    }
  }

  function Pow10(k: nat): nat {
    if k == 0 then 1 else 10 * Pow10(k - 1)
  }

  /** Without its last `k` digits. */
  function Chop(n: nat, k: nat): nat {
    if k == 0 then n else Chop(n / 10, k - 1)
  }

  lemma {:induction false} ChopAtLeast(m: nat, n: nat, k: nat)
    ensures m <= Chop(n, k) <==> m * Pow10(k) <= n
  {
    if k > 0 {
      ChopAtLeast(m, n / 10, k - 1);
      TimesTen(m, Pow10(k - 1));
    }
  }

  lemma TimesTen(m: nat, p: nat)
    ensures m * (10 * p) == 10 * (m * p)
  {}

  lemma {:induction false} DecimalOfChop(n: nat, k: nat)
    requires k < |Decimal(n)|
    ensures Decimal(Chop(n, k)) == Decimal(n)[..|Decimal(n)| - k]
  {
    if k > 0 {
      DecimalOfChop(n / 10, k - 1);
      assert Decimal(n)[..|Decimal(n)| - 1] == Decimal(n / 10);
    }
  }

  lemma {:induction false} LongerDecimal(m: nat, n: nat)
    requires m <= n
    ensures |Decimal(m)| <= |Decimal(n)|
  {
    if m >= 10 { LongerDecimal(m / 10, n / 10); }
  }

  /** Strings compare as their beginnings of one length do, or as what follows equal beginnings does. */
  lemma {:induction false} CompareExtended(a: string, b: string, x: string, y: string)
    requires |a| == |b|
    ensures Compare(a + x, b + y) == if a == b then Compare(x, y) else Compare(a, b)
  {
    if a == [] {
      assert a + x == x && b + y == y;
    } else {
      assert (a + x)[1..] == a[1..] + x && (b + y)[1..] == b[1..] + y;
      assert a == [a[0]] + a[1..] && b == [b[0]] + b[1..];
      CompareExtended(a[1..], b[1..], x, y);
    }
  }

  /** Numerals of one length compare as their numbers do. */
  lemma {:induction false} CompareSameLength(m: nat, n: nat)
    requires |Decimal(m)| == |Decimal(n)|
    ensures Compare(Decimal(m), Decimal(n)) < 0 <==> m < n
  {
    if m < 10 {
      assert n < 10;
    } else {
      var x, y := [Digit(m % 10)], [Digit(n % 10)];
      CompareSameLength(m / 10, n / 10);
      CompareExtended(Decimal(m / 10), Decimal(n / 10), x, y);
      if Decimal(m / 10) == Decimal(n / 10) { DecimalInjective(m / 10, n / 10); }
    }
  }

  /** As strings, numerals keep the order of their numbers exactly when the smaller number, scaled to the
    length of the greater one, does not exceed it. */
  lemma {:induction false} DecimalsInOrder(m: nat, n: nat)
    requires m < n
    ensures |Decimal(m)| <= |Decimal(n)|
    ensures Compare(Decimal(m), Decimal(n)) < 0 <==> m * Pow10(|Decimal(n)| - |Decimal(m)|) <= n
  {
    hide Compare, Decimal, Pow10;
    LongerDecimal(m, n);
    var k := |Decimal(n)| - |Decimal(m)|;
    var head := Chop(n, k);
    ChopAtLeast(m, n, k);
    SomeDigits(m);
    DecimalOfChop(n, k);
    CompareSameLength(m, head);
    var tail := Decimal(n)[|Decimal(head)|..];
    assert Decimal(m) + [] == Decimal(m) && Decimal(head) + tail == Decimal(n);
    CompareExtended(Decimal(m), Decimal(head), [], tail);
    if m == head {
      assert k > 0;
      EmptyIsFirst(tail);
    } else if Decimal(m) == Decimal(head) {
      DecimalInjective(m, head);
    }
  }

  lemma SomeDigits(n: nat)
    ensures Decimal(n) != []
  {}

  lemma EmptyIsFirst(s: string)
    requires s != []
    ensures Compare([], s) < 0
  {}

  /** A separator that does not occur in the tails splits a string in one way only. */
  lemma {:induction false} SplitAtLast(a: string, b: string, x: string, y: string, c: char)
    requires c !in x && c !in y
    requires a + [c] + x == b + [c] + y
    ensures a == b && x == y
  {
    var s, t := a + [c] + x, b + [c] + y;
    assert |a| == |b| by {
      assert s[|a|] == c && t[|b|] == c;
      assert forall i :: |a| < i < |s| ==> s[i] == x[i - |a| - 1];
      assert forall i :: |b| < i < |t| ==> t[i] == y[i - |b| - 1];
    }
    assert s[..|a|] == a && t[..|b|] == b;
    assert s[|a| + 1..] == x && t[|b| + 1..] == y;
  }
}
