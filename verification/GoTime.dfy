/** Go's machine integers and times. Times and durations are in nanoseconds. */
module GoTime {
  const SECOND: int := 1_000_000_000
  /** Go's zero time, relative to the Unix epoch. */
  const ZERO_TIME: int := -62135596800 * SECOND

  const MAX_INT32: int := 0x7fff_ffff
  const MAX_INT64: int := 0x7fff_ffff_ffff_ffff

  type Int32 = x: int | -MAX_INT32 - 1 <= x <= MAX_INT32

  /** The value a 32-bit signed integer takes when `x` is stored in it. */
  function Wrap32(x: int): (r: Int32)
    ensures -MAX_INT32 - 1 <= x <= MAX_INT32 ==> r == x
  {
    (x + 0x8000_0000) % 0x1_0000_0000 - 0x8000_0000
  }

  /** The value a 64-bit signed integer takes when `x` is stored in it. */
  function Wrap64(x: int): (r: int)
    ensures -MAX_INT64 - 1 <= r <= MAX_INT64
    ensures -MAX_INT64 - 1 <= x <= MAX_INT64 ==> r == x
  {
    (x + 0x8000_0000_0000_0000) % 0x1_0000_0000_0000_0000 - 0x8000_0000_0000_0000
  }

  /** Doubling a wrapped value wraps to what doubling the exact one does. */
  lemma {:induction false} Wrap64Doubled(x: int)
    ensures Wrap64(Wrap64(x) * 2) == Wrap64(x * 2)
  {
    var m := 0x1_0000_0000_0000_0000;
    var q := (x + 0x8000_0000_0000_0000) / m;
    assert Wrap64(x) == x - q * m;
    SameRemainder(x * 2 + 0x8000_0000_0000_0000, -2 * q, m);
  }

  lemma SameRemainder(x: int, q: int, m: int)
    requires m > 0
    ensures (x + q * m) % m == x % m
  {
    var d := x / m;
    assert x + q * m == (d + q) * m + x % m;
    RemainderUnique(x + q * m, d + q, x % m, m);
  }

  lemma RemainderUnique(x: int, q: int, r: int, m: int)
    requires m > 0 && 0 <= r < m && x == q * m + r
    ensures x % m == r
  {
    var p, rest := x / m, x % m;
    assert x == p * m + rest;
    SameQuotient(p, rest, q, r, m);
  }

  lemma SameQuotient(p: int, r: int, q: int, s: int, m: int)
    requires m > 0 && 0 <= r < m && 0 <= s < m && p * m + r == q * m + s
    ensures r == s
  {
    if p < q { AtLeastOnce(q - p, m); Distribute(q, p, m); }
    if q < p { AtLeastOnce(p - q, m); Distribute(p, q, m); }
  }

  lemma AtLeastOnce(k: int, m: int)
    requires k >= 1 && m > 0
    ensures k * m >= m
  {}

  lemma Distribute(a: int, b: int, m: int)
    ensures (a - b) * m == a * m - b * m
  {}
}
