/** Division and multiples. */
module Arith {

  lemma MulMono(a: int, b: int, m: nat)
    requires a <= b
    ensures a * m <= b * m
  {
    assert (b - a) * m >= 0;
  }

  /** Multiples of `m` are at least `m` apart. */
  lemma MulStrict(a: int, b: int, m: nat)
    requires a * m < b * m
    ensures a < b && a * m + m <= b * m
  {
    assert b <= a ==> b * m <= a * m by { if b <= a { MulMono(b, a, m); } }
    MulMono(a + 1, b, m);
    assert (a + 1) * m == a * m + m;
  }

  lemma ModOfMultiple(q: int, m: nat)
    requires m > 0
    ensures (q * m) % m == 0 && (q * m) / m == q
  {
    var t, r := (q * m) / m, (q * m) % m;
    assert (q - t) * m == r < m;
    assert q - t >= 1 ==> (q - t) * m >= m by { if q - t >= 1 { MulMono(1, q - t, m); } }
    assert q - t <= -1 ==> (q - t) * m + m <= 0 by { if q - t <= -1 { MulMono(q - t, -1, m); } }
  }

  /** A number is its quotient times the divisor plus the remainder, uniquely. */
  lemma DivModUnique(x: int, q: int, r: int, m: nat)
    requires m > 0 && 0 <= r < m && x == q * m + r
    ensures x / m == q && x % m == r
  {
    var t, s := x / m, x % m;
    assert (q - t) * m == s - r;
    assert q - t >= 1 ==> (q - t) * m >= m by { if q - t >= 1 { MulMono(1, q - t, m); } }
    assert q - t <= -1 ==> (q - t) * m + m <= 0 by { if q - t <= -1 { MulMono(q - t, -1, m); } }
  }

  /** Sums and differences of multiples. */
  lemma MultipleSum(x: int, y: int, m: nat)
    requires m > 0 && x % m == 0 && y % m == 0
    ensures (x + y) % m == 0 && (x - y) % m == 0
  {
    assert x + y == (x / m + y / m) * m;
    assert x - y == (x / m - y / m) * m;
    ModOfMultiple(x / m + y / m, m);
    ModOfMultiple(x / m - y / m, m);
  }

  /** Two multiples closer than `m` apart are equal; so one strictly below another is at
      least `m` below it. */
  lemma MultiplesApart(x: int, y: int, m: nat)
    requires m > 0 && x % m == 0 && y % m == 0 && x < y
    ensures x + m <= y
  {
    MulStrict(x / m, y / m, m);
  }

  /** The largest multiple of `m` not above `x`. */
  function AlignDown(x: nat, m: nat): (r: nat)
    requires m > 0
  {
    x - x % m
  }

  lemma AlignDownIs(x: nat, m: nat)
    requires m > 0
    ensures AlignDown(x, m) % m == 0 && AlignDown(x, m) <= x < AlignDown(x, m) + m
  {
    assert AlignDown(x, m) == (x / m) * m;
    ModOfMultiple(x / m, m);
  }

  /** The smallest multiple of `m` not below `x`. */
  function AlignUp(x: nat, m: nat): nat
    requires m > 0
  {
    AlignDown(x + (m - 1), m)
  }

  lemma AlignUpIs(x: nat, m: nat)
    requires m > 0
    ensures AlignUp(x, m) % m == 0 && x <= AlignUp(x, m) < x + m
  {
    AlignDownIs(x + (m - 1), m);
  }

  lemma AlignUpLeast(x: nat, m: nat, y: nat)
    requires m > 0 && y % m == 0 && x <= y
    ensures AlignUp(x, m) <= y
  {
    AlignUpIs(x, m);
    var u := AlignUp(x, m);
    assert y < u ==> y + m <= u by { if y < u { MultiplesApart(y, u, m); } }
  }

  lemma AlignDownExact(x: nat, m: nat)
    requires m > 0 && x % m == 0
    ensures AlignDown(x, m) == x
  {}

  /** Divisibility is transitive. */
  lemma DividesTrans(a: nat, b: nat, x: int)
    requires a > 0 && b > 0 && b % a == 0 && x % b == 0
    ensures x % a == 0
  {
    var k, j := b / a, x / b;
    assert x == j * b && b == k * a;
    assert x == (j * k) * a;
    ModOfMultiple(j * k, a);
  }

  // ---- powers of two ----

  function Pow2(n: nat): (r: nat)
    ensures r > 0
  {
    if n == 0 then 1 else 2 * Pow2(n - 1)
  }

  ghost predicate IsPow2(x: nat) {
    exists n: nat :: x == Pow2(n)
  }

  lemma {:induction false} Pow2Divides(a: nat, b: nat)
    requires a <= b
    ensures Pow2(b) % Pow2(a) == 0 && Pow2(a) <= Pow2(b)
    decreases b
  {
    if a < b {
      Pow2Divides(a, b - 1);
      MultipleSum(Pow2(b - 1), Pow2(b - 1), Pow2(a));
    }
  }

  lemma {:induction false} Pow2Adds(a: nat, b: nat)
    ensures Pow2(a + b) == Pow2(a) * Pow2(b)
  {
    if b > 0 {
      Pow2Adds(a, b - 1);
      assert Pow2(a + b) == 2 * Pow2(a + b - 1);
    }
  }

  lemma KnownPowers()
    ensures Pow2(29) == 0x2000_0000 && Pow2(32) == 0x1_0000_0000
    ensures Pow2(33) == 0x2_0000_0000 && Pow2(34) == 0x4_0000_0000
  {
    assert Pow2(4) == 2 * Pow2(3) == 4 * Pow2(2) == 8 * Pow2(1) == 16;
    Pow2Adds(4, 4);
    Pow2Adds(8, 8);
    Pow2Adds(16, 16);
    assert Pow2(32) == 2 * Pow2(31) == 4 * Pow2(30) == 8 * Pow2(29);
  }

  /** Executable form of the question. */
  predicate PowerOfTwo(x: nat) {
    x == 1 || (x > 1 && x % 2 == 0 && PowerOfTwo(x / 2))
  }

  lemma {:induction false} PowerOfTwoIs(x: nat)
    ensures PowerOfTwo(x) <==> IsPow2(x)
  {
    if x > 1 {
      PowerOfTwoIs(x / 2);
      if PowerOfTwo(x) {
        var n: nat :| x / 2 == Pow2(n);
        assert x == Pow2(n + 1);
      }
      if IsPow2(x) {
        var n: nat :| x == Pow2(n);
        assert n > 0 && x == 2 * Pow2(n - 1);
        assert x / 2 == Pow2(n - 1);
      }
    } else {
      assert Pow2(0) == 1;
    }
  }

  /** Of two powers of two the smaller divides the larger. */
  lemma PowersDivide(x: nat, y: nat)
    requires IsPow2(x) && IsPow2(y) && x <= y
    ensures x > 0 && y % x == 0
  {
    var a: nat :| x == Pow2(a);
    var b: nat :| y == Pow2(b);
    if a <= b { Pow2Divides(a, b); } else { Pow2Divides(b, a); }
  }
}
