/** The part of IEEE 754-2019 binary64 that comparing numbers needs: the order of doubles, and the
  round-to-nearest-even conversion of an integer to a double (section 4.3.1). */
module Binary64 {

  /** Both zeros are `Finite(0.0)`: they compare equal. */
  datatype Double = NaN | NegInf | Finite(r: real) | PosInf

  /** The IEEE `<`, false whenever an operand is NaN. */
  predicate Less(a: Double, b: Double) {
    match (a, b)
    case (Finite(x), Finite(y)) => x < y
    case (NegInf, Finite(_)) => true
    case (NegInf, PosInf) => true
    case (Finite(_), PosInf) => true
    case _ => false
  }

  const P52: int := 0x10_0000_0000_0000
  const P53: int := 0x20_0000_0000_0000

  /** `a * u` as repeated addition, and `m / u` as repeated subtraction: they keep the proofs below in
    linear arithmetic. */
  function Times(a: nat, u: nat): nat {
    if a == 0 then 0 else Times(a - 1, u) + u
  }

  function Quotient(m: nat, u: nat): (q: nat)
    requires u > 0
    ensures Times(q, u) <= m < Times(q, u) + u
  {
    if m < u then 0 else Quotient(m - u, u) + 1
  }

  function Pow2(e: nat): (p: nat)
    ensures p > 0
  {
    if e == 0 then 1 else 2 * Pow2(e - 1)
  }

  /** The distance between neighbouring doubles in the binade of the magnitude `m`, where that is at
    least 1. */
  function Spacing(m: nat): (u: nat)
    ensures u > 0
  {
    if m < P53 then 1 else 2 * Spacing(m / 2)
  }

  /** `q * u + rest` rounded to a multiple of `u`, halves going to the even multiple. */
  function RoundParts(q: nat, rest: nat, u: nat): nat {
    if 2 * rest < u || (2 * rest == u && q % 2 == 0) then Times(q, u) else Times(q + 1, u)
  }

  function RoundMagnitude(m: nat): nat {
    var u := Spacing(m);
    var q := Quotient(m, u);
    RoundParts(q, m - Times(q, u), u)
  }

  function Round(i: int): int {
    if i < 0 then 0 - RoundMagnitude(-i) else RoundMagnitude(i)
  }

  /** Go's `float64(i)`. */
  function FromInt(i: int): Double {
    Finite(Round(i) as real)
  }

  // ---------- arithmetic ----------

  lemma {:induction false} TimesIsProduct(a: nat, u: nat)
    ensures Times(a, u) == a * u
  {
    if a > 0 { TimesIsProduct(a - 1, u); }
  }

  lemma {:induction false} TimesMonotone(a: nat, b: nat, u: nat)
    requires a <= b
    ensures Times(a, u) <= Times(b, u)
  {
    if a < b { TimesMonotone(a, b - 1, u); }
  }

  lemma {:induction false} TimesTwice(a: nat, u: nat)
    ensures Times(a, 2 * u) == 2 * Times(a, u)
  {
    if a > 0 { TimesTwice(a - 1, u); }
  }

  lemma {:induction false} TimesDouble(a: nat, u: nat)
    ensures Times(2 * a, u) == 2 * Times(a, u)
  {
    if a > 0 { TimesDouble(a - 1, u); }
  }

  /** Multiples are ordered as their multipliers are, and are `u` apart. */
  lemma MultiplesApart(p: nat, q: nat, u: nat)
    ensures Times(p, u) < Times(q, u) ==> p < q && Times(p, u) + u <= Times(q, u)
  {
    if q <= p { TimesMonotone(q, p, u); } else { TimesMonotone(p + 1, q, u); }
  }

  lemma {:induction false} Pow2Splits(k: nat, e: nat, f: nat) returns (j: nat)
    requires f <= e
    ensures Times(k, Pow2(e)) == Times(j, Pow2(f))
  {
    if f == e {
      j := k;
    } else {
      var i := Pow2Splits(k, e - 1, f);
      TimesTwice(k, Pow2(e - 1));
      TimesDouble(i, Pow2(f));
      j := 2 * i;
    }
  }

  lemma {:induction false} Pow2Monotone(e: nat, f: nat)
    requires e <= f
    ensures Pow2(e) <= Pow2(f)
  {
    if e < f { Pow2Monotone(e, f - 1); }
  }

  // ---------- the conversion never inverts two integers ----------

  lemma {:induction false} SpacingBounds(m: nat)
    ensures m < P53 * Spacing(m)
    ensures Spacing(m) > 1 ==> P52 * Spacing(m) <= m
    ensures exists e: nat :: Spacing(m) == Pow2(e)
  {
    if m < P53 {
      assert Pow2(0) == 1;
    } else {
      SpacingBounds(m / 2);
      var e: nat :| Spacing(m / 2) == Pow2(e);
      assert Spacing(m) == Pow2(e + 1);
    }
  }

  lemma {:induction false} SpacingMonotone(m: nat, n: nat)
    requires m <= n
    ensures Spacing(m) <= Spacing(n)
    ensures Spacing(m) < Spacing(n) ==> 2 * Spacing(m) <= Spacing(n)
    decreases n
  {
    if m >= P53 {
      SpacingMonotone(m / 2, n / 2);
    } else if n >= P53 {
      assert Spacing(n) == 2 * Spacing(n / 2);
    }
  }

  /** In one binade, a larger magnitude never rounds lower. */
  lemma RoundPartsMonotone(p: nat, r: nat, q: nat, s: nat, u: nat)
    requires r < u && s < u && Times(p, u) + r <= Times(q, u) + s
    ensures RoundParts(p, r, u) <= RoundParts(q, s, u)
  {
    MultiplesApart(q, p, u);
    if p < q {
      TimesMonotone(p + 1, q, u);
    } else if q < p {
      TimesMonotone(q + 1, p, u);
    }
  }

  /** A constant multiple at or below `m` is at or below the multiple just under `m`, and one above
    `m` is at or above the next multiple. */
  lemma ConstantMultiple(k: nat, q: nat, u: nat, m: nat)
    requires Times(q, u) <= m < Times(q + 1, u)
    ensures k * u <= m ==> k * u <= Times(q, u)
    ensures m < k * u ==> Times(q + 1, u) <= k * u
  {
    TimesIsProduct(k, u);
    MultiplesApart(q, k, u);
    if k <= q { TimesMonotone(k, q, u); } else { TimesMonotone(q + 1, k, u); }
  }

  /** The two neighbours rounding chooses from lie in one closed binade. */
  lemma Neighbours(m: nat, q: nat, u: nat)
    requires u == Spacing(m) && q == Quotient(m, u)
    ensures Times(q + 1, u) <= P53 * u
    ensures u > 1 ==> P52 * u <= Times(q, u)
  {
    SpacingBounds(m);
    ConstantMultiple(P53, q, u, m);
    ConstantMultiple(P52, q, u, m);
  }

  lemma RoundMagnitudeMonotone(m: nat, n: nat)
    requires m <= n
    ensures RoundMagnitude(m) <= RoundMagnitude(n)
  {
    var u, v := Spacing(m), Spacing(n);
    var p, q := Quotient(m, u), Quotient(n, v);
    SpacingMonotone(m, n);
    Neighbours(m, p, u);
    Neighbours(n, q, v);
    if u == v {
      RoundPartsMonotone(p, m - Times(p, u), q, n - Times(q, u), u);
    }
  }

  lemma {:induction false} RoundMonotone(a: int, b: int)
    requires a <= b
    ensures Round(a) <= Round(b)
  {
    hide RoundMagnitude;
    if 0 <= a {
      RoundMagnitudeMonotone(a, b);
    } else if b < 0 {
      RoundMagnitudeMonotone(-b, -a);
    }
  }

  lemma RoundMagnitudeExact(m: nat)
    requires m <= P53
    ensures RoundMagnitude(m) == m
  {
    assert Spacing(m / 2) == 1;
    Neighbours(m, Quotient(m, Spacing(m)), Spacing(m));
  }

  lemma {:induction false} RoundExact(i: int)
    requires -P53 <= i <= P53
    ensures Round(i) == i
  {
    RoundMagnitudeExact(if i < 0 then -i else i);
  }

  /** The first integer that is not a double is a tie, and goes to its even neighbour. */
  lemma {:induction false} FirstTie()
    ensures Round(P53 + 1) == P53
  {
    var m := P53 + 1;
    assert Spacing(m / 2) == 1;
    var q := Quotient(m, 2);
    TimesIsProduct(q, 2);
    assert q == P52;
  }

  // ---------- the conversion is the one of the standard ----------

  /** `y` is a double: an integer of at most 53 bits times a power of two. */
  ghost predicate Representable(y: nat) {
    exists k: nat, e: nat :: IsScaled(y, k, e)
  }

  ghost predicate IsScaled(y: nat, k: nat, e: nat) {
    k <= P53 && y == Times(k, Pow2(e))
  }

  function Distance(a: int, b: int): nat {
    if a < b then b - a else a - b
  }

  /** No double lies strictly between the two neighbours that rounding chooses from. */
  lemma NoDoubleBetween(q: nat, u: nat, f: nat, y: nat)
    requires u == Pow2(f) && (u > 1 ==> P52 * u <= Times(q, u))
    requires Representable(y)
    ensures y <= Times(q, u) || Times(q, u) + u <= y
  {
    var k: nat, e: nat :| IsScaled(y, k, e);
    if f <= e {
      var j := Pow2Splits(k, e, f);
      MultiplesApart(q, j, u);
    } else {
      Pow2Monotone(e, f - 1);
      AtMost(k, P53, Pow2(e));
    }
  }

  lemma AtMost(k: nat, n: nat, u: nat)
    requires k <= n
    ensures Times(k, u) <= n * u
  {
    TimesIsProduct(n, u);
    TimesMonotone(k, n, u);
  }

  ghost predicate EvenMultiple(h: nat, m: nat) {
    RoundMagnitude(m) == Times(2 * h, Spacing(m))
  }

  lemma RoundIsRepresentable(m: nat)
    ensures Representable(RoundMagnitude(m))
  {
    var u := Spacing(m);
    var q := Quotient(m, u);
    SpacingBounds(m);
    var f: nat :| u == Pow2(f);
    hide Spacing, Quotient, Pow2;
    AtMost53Bits(m, q, u);
    assert RoundMagnitude(m) == Times(q, u) || RoundMagnitude(m) == Times(q + 1, u);
    assert IsScaled(Times(q, u), q, f) && IsScaled(Times(q + 1, u), q + 1, f);
  }

  lemma AtMost53Bits(m: nat, q: nat, u: nat)
    requires u == Spacing(m) && q == Quotient(m, u)
    ensures q + 1 <= P53
  {
    Neighbours(m, q, u);
    TimesIsProduct(P53, u);
    if P53 < q + 1 { TimesMonotone(P53 + 1, q + 1, u); }
  }

  /** Rounding picks the nearer of two neighbours, and of two equally near ones the even multiple. */
  lemma NearestNeighbour(m: nat, q: nat, u: nat, y: nat)
    requires u == Spacing(m) && q == Quotient(m, u)
    requires y <= Times(q, u) || Times(q, u) + u <= y
    ensures Distance(RoundMagnitude(m), m) <= Distance(y, m)
    ensures Distance(RoundMagnitude(m), m) == Distance(y, m) && y != RoundMagnitude(m) ==> EvenMultiple((q + 1) / 2, m)
  {
    hide Spacing, Quotient, Pow2, Times;
    TimesNext(q, u);
    assert q % 2 == 0 ==> 2 * ((q + 1) / 2) == q;
    assert q % 2 == 1 ==> 2 * ((q + 1) / 2) == q + 1;
  }

  lemma TimesNext(q: nat, u: nat)
    ensures Times(q + 1, u) == Times(q, u) + u
  {}

  /** The rounded magnitude is a double, no double is nearer to `m`, and when some other double is
    equally near the chosen one is an even multiple of the spacing. */
  lemma {:induction false} RoundsToNearestEven(m: nat, y: nat)
    requires Representable(y)
    ensures Representable(RoundMagnitude(m))
    ensures Distance(RoundMagnitude(m), m) <= Distance(y, m)
    ensures Distance(RoundMagnitude(m), m) == Distance(y, m) && y != RoundMagnitude(m) ==>
              exists h: nat :: EvenMultiple(h, m)
  {
    hide *;
    var u := Spacing(m);
    var q := Quotient(m, u);
    RoundIsRepresentable(m);
    Neighbours(m, q, u);
    SpacingBounds(m);
    var f: nat :| u == Pow2(f);
    NoDoubleBetween(q, u, f, y);
    NearestNeighbour(m, q, u, y);
  }
}
