/** Addresses in a circular buffer of n bytes, and half-open regions of it. */
module Ring {

  /** How far q lies ahead of p when one only moves forward; both lie in one window of n addresses. */
  function Dist(n: nat, p: int, q: int): int {
    if p <= q then q - p else q - p + n
  }

  /** The region from start up to, not including, end; it crosses the wrap when end < start. */
  datatype Region = Region(start: nat, end: nat)

  function Len(n: nat, r: Region): int {
    Dist(n, r.start, r.end)
  }

  predicate Inside(base: nat, n: nat, a: int) {
    base <= a < base + n
  }

  predicate RegionInside(base: nat, n: nat, r: Region) {
    Inside(base, n, r.start) && Inside(base, n, r.end) && r.start != r.end
  }

  /** Address a belongs to region r. */
  predicate Covers(n: nat, r: Region, a: int) {
    Dist(n, r.start, a) < Len(n, r)
  }

  /** r lies entirely on the forward arc from limit round to p. */
  predicate Beyond(n: nat, p: int, limit: int, r: Region) {
    Dist(n, p, limit) <= Dist(n, p, r.start) && Dist(n, p, r.start) + Len(n, r) <= n
  }

  function RoundDown256(a: nat): nat {
    a - a % 256
  }

  function RoundUp4(a: nat): nat {
    if a % 4 == 0 then a else a + (4 - a % 4)
  }

  /** A region beyond the limit covers no address of the window [p, limit). */
  lemma BeyondMissesWindow(base: nat, n: nat, p: int, limit: int, r: Region, a: int)
    requires Inside(base, n, p) && Inside(base, n, limit) && Inside(base, n, a) && RegionInside(base, n, r)
    requires Beyond(n, p, limit, r)
    requires Dist(n, p, a) < Dist(n, p, limit)
    ensures !Covers(n, r, a)
  {
  }

  /** Two multiples of m that differ, differ by at least m. */
  lemma MultiplesApart(m: nat, x: int, y: int)
    requires m == 4 || m == 256
    requires x % m == 0 && y % m == 0 && x < y
    ensures x + m <= y
  {
  }

  lemma SumOfMultiples(m: nat, x: int, y: int)
    requires m == 4 || m == 256
    requires x % m == 0 && y % m == 0
    ensures (x + y) % m == 0 && (x - y) % m == 0
  {
    var j, k := x / m, y / m;
    if m == 4 {
      assert x + y == 4 * (j + k) && x - y == 4 * (j - k);
    } else {
      assert x + y == 256 * (j + k) && x - y == 256 * (j - k);
    }
  }

  lemma BlockMultiples(x: nat)
    requires x % 4096 == 0
    ensures x % 256 == 0 && x % 4 == 0
  {
    var k := x / 4096;
    assert x == 256 * (16 * k) == 4 * (1024 * k);
  }

  lemma RoundDownBounds(a: nat)
    ensures RoundDown256(a) <= a < RoundDown256(a) + 256 && RoundDown256(a) % 256 == 0
  {
  }

  lemma RoundUpBounds(a: nat)
    ensures a <= RoundUp4(a) < a + 4 && RoundUp4(a) % 4 == 0
  {
  }

  lemma RoundDownInside(base: nat, n: nat, a: nat)
    requires base % 4096 == 0 && Inside(base, n, a)
    ensures Inside(base, n, RoundDown256(a)) && RoundDown256(a) % 256 == 0
    ensures a - RoundDown256(a) < 256
  {
    BlockMultiples(base);
    RoundDownBounds(a);
    if RoundDown256(a) < base {
      MultiplesApart(256, RoundDown256(a), base);
    }
  }

  lemma RoundUpInside(base: nat, n: nat, a: nat)
    requires base % 4096 == 0 && n % 4096 == 0 && Inside(base, n, a)
    ensures a <= RoundUp4(a) <= base + n && RoundUp4(a) < a + 4 && RoundUp4(a) % 4 == 0
  {
    RoundUpBounds(a);
    BlockMultiples(base);
    BlockMultiples(n);
    SumOfMultiples(4, base, n);
    if base + n < RoundUp4(a) {
      MultiplesApart(4, base + n, RoundUp4(a));
    }
  }

  /**
   * Rounding an address down to 256 cannot step back over a 256-aligned address that lies
   * behind it: from w, the rounded point is no nearer than the aligned point.
   */
  lemma RoundDownStaysAhead(base: nat, n: nat, w: int, aligned: nat, a: nat)
    requires n % 4096 == 0 && base % 4096 == 0 && aligned % 256 == 0
    requires Inside(base, n, w) && Inside(base, n, aligned) && Inside(base, n, a)
    requires Dist(n, w, aligned) <= Dist(n, w, a)
    ensures Inside(base, n, RoundDown256(a))
    ensures Dist(n, w, aligned) <= Dist(n, w, RoundDown256(a)) <= Dist(n, w, a)
  {
    RoundDownInside(base, n, a);
    var b := RoundDown256(a);
    if b < aligned <= a {
      MultiplesApart(256, b, aligned);
    }
  }
}
