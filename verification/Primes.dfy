/** Trial division, prime counting and how a count is reported. */
module Primes {
  import opened Base

  predicate Divides(d: int, n: int)
    requires d > 0
  {
    n % d == 0
  }

  ghost predicate Prime(n: int) {
    n >= 2 && forall d :: 2 <= d < n ==> !Divides(d, n)
  }

  // ---------- the 6k +/- 1 test ----------

  // `d * d` on u64: past this it overflows.
  predicate SquareFits(d: nat) { d * d <= U64_MAX }

  // The square of the last candidate, 2^32 - 5, whose square fits.
  const OVERFLOW_FLOOR: int := 0xffff_fffb * 0xffff_fffb

  datatype Primality = Decided(prime: bool) | Overflow

  ghost predicate NoDivisorBelow(n: int, bound: int) {
    forall k :: 2 <= k < bound ==> !Divides(k, n)
  }

  lemma SquareGrows(a: int, b: int)
    requires 0 <= a <= b
    ensures a * a <= b * b
  {
  }

  lemma MultipleOfMultiple(k: int, m: int, n: int)
    requires k > 0 && m > 0 && Divides(m, k) && Divides(k, n)
    ensures Divides(m, n)
  {
    var a, b := k / m, n / k;
    assert n == b * k && k == a * m;
    assert n == (b * a) * m;
    assert (b * a) * m % m == 0 by { ProductDivides(b * a, m); }
  }

  lemma ProductDivides(q: int, m: int)
    requires m > 0
    ensures q * m % m == 0
  {
    var r := q * m % m;
    var k := q * m / m - q;
    assert k * m == -r;
    assert k <= -1 ==> k * m <= -m;
    assert k >= 1 ==> k * m >= m;
  }

  lemma SquareOrder(a: nat, b: nat)
    requires a * a < b * b
    ensures a < b
  {
  }

  lemma MulGrows(a: int, b: int, c: int)
    requires a <= b && 0 <= c
    ensures a * c <= b * c
  {
  }

  // A composite number has a divisor no larger than its root.
  lemma SmallDivisor(n: int, k: int) returns (m: int)
    requires 2 <= k < n && Divides(k, n)
    ensures 2 <= m && m * m <= n && Divides(m, n)
  {
    var q := n / k;
    assert n == q * k;
    if q <= 1 { MulGrows(q, 1, k); }
    ProductDivides(k, q);
    assert k * q == n;
    if q <= k {
      m := q;
      MulGrows(q, k, q);
    } else {
      m := k;
      MulGrows(k, q, k);
    }
  }

  lemma NoSmallDivisorMeansPrime(n: int, d: int)
    requires n >= 2 && d >= 2 && NoDivisorBelow(n, d) && n < d * d
    ensures Prime(n)
  {
    forall k | 2 <= k < n
      ensures !Divides(k, n)
    {
      if Divides(k, n) {
        var m := SmallDivisor(n, k);
        SquareOrder(m, d);
        assert false;
      }
    }
  }

  lemma SkippedResidues(d: int, k: int)
    requires d % 6 == 5 && d < k < d + 6 && k != d + 2
    ensures k % 2 == 0 || k % 3 == 0
  {
    var q := d / 6;
    assert d == 6 * q + 5;
    if k == d + 4 {
      assert k == (2 * q + 3) * 3;
      ProductDivides(2 * q + 3, 3);
    } else {
      var half := if k == d + 1 then 3 * q + 3 else if k == d + 3 then 3 * q + 4 else 3 * q + 5;
      assert k == half * 2;
      ProductDivides(half, 2);
    }
  }

  // One turn of the loop: the four candidates it skips are multiples of 2 or 3.
  lemma SkippedCandidates(n: int, d: int)
    requires d > 0 && d % 6 == 5 && n % 2 != 0 && n % 3 != 0
    requires NoDivisorBelow(n, d) && !Divides(d, n) && !Divides(d + 2, n)
    ensures NoDivisorBelow(n, d + 6)
  {
    forall k | 2 <= k < d + 6
      ensures !Divides(k, n)
    {
      if d < k && k != d + 2 {
        SkippedResidues(d, k);
        if Divides(k, n) {
          MultipleOfMultiple(k, if k % 2 == 0 then 2 else 3, n);
        }
      }
    }
  }

  lemma EvenOrTriple(n: int, m: int)
    requires m == 2 || m == 3
    requires n >= 2 && n % m == 0
    ensures Prime(n) <==> n == m
  {
    if n != m {
      assert n > m;
      assert Divides(m, n);
    }
    assert m == 3 && n == 3 ==> !Divides(2, n);
  }

  // Where the loop can stop: below the overflow it has seen d * d > n; at it, d is 2^32 + 1.
  lemma LoopExit(n: u64, d: nat)
    requires d % 6 == 5 && (d == 5 || (SquareFits(d - 6) && (d - 6) * (d - 6) <= n))
    ensures SquareFits(d) && n < d * d ==> n < OVERFLOW_FLOOR
    ensures !SquareFits(d) ==> n < d * d && OVERFLOW_FLOOR <= n
  {
    var top := 0xffff_ffff;
    if SquareFits(d) {
      if d > top { SquareGrows(top + 1, d); assert false; }
      assert d <= 0xffff_fffb;
      SquareGrows(d, 0xffff_fffb);
    } else {
      if d <= top { SquareGrows(d, top); assert false; }
      if d - 6 > top { SquareGrows(top + 1, d - 6); assert false; }
      assert d - 6 == 0xffff_fffb;
    }
  }

  // Primality, except that `d * d` overflows on exactly the primes from (2^32 - 5)^2 up.
  ghost function Verdict(n: u64): Primality {
    if Prime(n) && n >= OVERFLOW_FLOOR then Overflow else Decided(Prime(n))
  }

  // In particular no number up to 2^63 makes it overflow, nor any composite number at all.
  lemma WhereItDecides(n: u64)
    requires n <= 0x8000_0000_0000_0000 || !Prime(n)
    ensures Verdict(n) == Decided(Prime(n))
  {
  }

  method IsPrime(n: u64) returns (r: Primality)
    ensures r == Verdict(n)
  {
    if n < 2 {
      return Decided(false);
    }
    if n % 2 == 0 {
      EvenOrTriple(n, 2);
      return Decided(n == 2);
    }
    if n % 3 == 0 {
      EvenOrTriple(n, 3);
      return Decided(n == 3);
    }
    var d := 5;
    assert NoDivisorBelow(n, 5) by {
      if Divides(4, n) { MultipleOfMultiple(4, 2, n); }
    }
    while SquareFits(d) && d * d <= n
      invariant d % 6 == 5 && d >= 5
      invariant d == 5 || (SquareFits(d - 6) && (d - 6) * (d - 6) <= n)
      invariant NoDivisorBelow(n, d)
      decreases n - d
    {
      assert d + 2 < n by {
        MulGrows(5, d, d);
      }
      if n % d == 0 || n % (d + 2) == 0 {
        assert Divides(d, n) || Divides(d + 2, n);
        return Decided(false);
      }
      SkippedCandidates(n, d);
      d := d + 6;
    }
    LoopExit(n, d);
    NoSmallDivisorMeansPrime(n, d);
    if !SquareFits(d) {
      return Overflow;
    }
    return Decided(true);
  }

  // ---------- counting ----------

  // The number of primes in the half-open range.
  ghost function PrimeCount(start: int, end: int): nat
    decreases end - start
  {
    if end <= start then 0 else PrimeCount(start, end - 1) + (if Prime(end - 1) then 1 else 0)
  }

  ghost function PrimesIn(start: int, end: int): set<int> {
    set n | start <= n < end && Prime(n)
  }

  lemma {:induction false} PrimeCountIsCardinality(start: int, end: int)
    ensures PrimeCount(start, end) == |PrimesIn(start, end)|
    decreases end - start
  {
    if end > start {
      PrimeCountIsCardinality(start, end - 1);
      if Prime(end - 1) {
        assert PrimesIn(start, end) == PrimesIn(start, end - 1) + {end - 1};
      } else {
        assert PrimesIn(start, end) == PrimesIn(start, end - 1);
      }
    } else {
      assert PrimesIn(start, end) == {};
    }
  }

  // Counting in pieces is counting whole.
  lemma {:induction false} PrimeCountSplits(a: int, b: int, c: int)
    requires a <= b <= c
    ensures PrimeCount(a, c) == PrimeCount(a, b) + PrimeCount(b, c)
    decreases c - b
  {
    if b < c {
      PrimeCountSplits(a, b, c - 1);
    }
  }

  // `count_primes`: the number of primes in the range, unless the range holds one on which `d * d` overflows.
  method CountPrimes(start: u64, end: u64) returns (count: Option<nat>)
    ensures count == if PrimeCount(Max(start, OVERFLOW_FLOOR), end) == 0 then Some(PrimeCount(start, end)) else None
  {
    var found := 0;
    var n: nat := Max(start, 2);
    ghost var from, high := n, Max(start, OVERFLOW_FLOOR);
    while n < end
      invariant from <= n && (n <= end || n == from)
      invariant n >= 2 && found == PrimeCount(from, n) && PrimeCount(high, n) == 0
    {
      var r := IsPrime(n);
      if r.Overflow? {
        PrimeCountSplits(high, n + 1, end);
        return None;
      }
      if r.prime {
        found := found + 1;
      }
      n := n + 1;
    }
    if start <= from <= end {
      PrimeCountSplits(start, from, end);
      NoPrimesOutside(start, from);
    } else {
      NoPrimesOutside(start, end);
    }
    return Some(found);
  }

  // No candidate below `end` makes the test overflow.
  ghost predicate Spared(end: int) { PrimeCount(OVERFLOW_FLOOR, end) == 0 }

  lemma SparedWithin(from: int, to: int, end: int)
    requires Spared(end) && to <= end
    ensures PrimeCount(Max(from, OVERFLOW_FLOOR), to) == 0
  {
    var low := Max(from, OVERFLOW_FLOOR);
    if low <= to {
      PrimeCountSplits(OVERFLOW_FLOOR, low, end);
      PrimeCountSplits(low, to, end);
    }
  }

  // Raising the start of a range to 2 loses no prime.
  lemma NoPrimesOutside(start: u64, end: int)
    requires end <= Max(start, 2)
    ensures PrimeCount(start, end) == 0
  {
  }
}
