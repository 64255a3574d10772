/** Congruences, the extended Euclidean algorithm and primes. */
module NumberTheory {
  import opened Wrappers

  // ----- remainders -----

  ghost predicate Divides(d: int, n: int) {
    d != 0 && n % d == 0
  }

  lemma DivModUnique(a: int, q: int, r: int, m: int)
    requires 0 <= r < m && a == q * m + r
    ensures a / m == q && a % m == r
  {
    var d := a / m - q;
    assert d * m == r - a % m by {
      assert a == (a / m) * m + a % m;
    }
    SmallMultiple(d, m);
  }

  lemma SmallMultiple(d: int, m: int)
    requires m > 0 && -m < d * m < m
    ensures d == 0
  {
    MulAtLeast(d, m);
    MulAtLeast(-d, m);
    assert (-d) * m == -(d * m);
  }

  lemma MulAtLeast(d: int, m: int)
    requires m >= 0
    ensures d >= 1 ==> d * m >= m
  {
    if d >= 1 {
      assert d * m == (d - 1) * m + m;
    }
  }

  /** Two numbers have the same remainder exactly when they differ by a multiple. */
  lemma SameRemainder(a: int, b: int, k: int, m: int)
    requires m > 0 && a == b + k * m
    ensures a % m == b % m
  {
    assert a == (b / m + k) * m + b % m;
    DivModUnique(a, b / m + k, b % m, m);
  }

  lemma DifferenceIsMultiple(a: int, b: int, m: int) returns (k: int)
    requires m > 0 && a % m == b % m
    ensures a == b + k * m
  {
    k := a / m - b / m;
    assert a == (a / m) * m + a % m;
    assert b == (b / m) * m + b % m;
    assert k * m == (a / m) * m - (b / m) * m;
  }

  lemma MulCong(a: int, b: int, c: int, m: int)
    requires m > 0 && a % m == b % m
    ensures (a * c) % m == (b * c) % m
  {
    var k := DifferenceIsMultiple(a, b, m);
    assert a * c == b * c + (k * c) * m;
    SameRemainder(a * c, b * c, k * c, m);
  }

  lemma ModIdem(a: int, m: int)
    requires m > 0
    ensures a % m % m == a % m
  {
    DivModUnique(a % m, 0, a % m, m);
  }

  lemma MulMod(a: int, b: int, m: int)
    requires m > 0
    ensures (a % m * b) % m == (a * b) % m
  {
    ModIdem(a, m);
    MulCong(a % m, a, b, m);
  }

  // ----- greatest common divisors -----

  lemma DividesLinear(d: int, a: int, x: int, b: int, y: int)
    requires d > 0 && Divides(d, a) && Divides(d, b)
    ensures Divides(d, a * x + b * y)
  {
    var i, j := a / d, b / d;
    assert a * x + b * y == 0 + (i * x + j * y) * d by {
      assert a == i * d && b == j * d;
      assert a * x == (i * x) * d && b * y == (j * y) * d;
    }
    SameRemainder(a * x + b * y, 0, i * x + j * y, d);
  }

  /** The extended Euclidean algorithm: (g, x, y) with g = a x + b y. */
  function ExtGcd(a: nat, b: nat): (r: (int, int, int))
    requires a > 0 || b > 0
    ensures r.0 == a * r.1 + b * r.2
    ensures r.0 > 0 && Divides(r.0, a) && Divides(r.0, b)
    decreases b
  {
    if b == 0 then
      (a, 1, 0)
    else
      var (g, x, y) := ExtGcd(b, a % b);
      ExtGcdStep(a, b, g, x, y);
      (g, y, x - (a / b) * y)
  }

  lemma ExtGcdStep(a: nat, b: nat, g: int, x: int, y: int)
    requires b > 0 && g > 0 && g == b * x + (a % b) * y
    requires Divides(g, b) && Divides(g, a % b)
    ensures g == a * y + b * (x - (a / b) * y)
    ensures Divides(g, a)
  {
    var q := a / b;
    assert a == b * q + a % b;
    assert (a % b) * y == a * y - (b * q) * y;
    assert b * (x - q * y) == b * x - (b * q) * y;
    DividesLinear(g, b, q, a % b, 1);
  }

  /** `k.modInverse(m)`: the inverse in [0, m), or a throw. */
  function Inverse(a: int, m: int): (r: Option<int>)
    ensures r.Some? ==> m > 0 && 0 <= r.value < m && (a * r.value) % m == 1 % m
  {
    if m <= 0 then None
    else
      var (g, x, y) := ExtGcd(a % m, m);
      if g == 1 then
        InverseWorks(a, m, x, y);
        Some(x % m)
      else None
  }

  lemma InverseWorks(a: int, m: int, x: int, y: int)
    requires m > 0 && 1 == (a % m) * x + m * y
    ensures (a * (x % m)) % m == 1 % m
  {
    SameRemainder((a % m) * x, 1, -y, m);
    MulMod(a, x, m);
    MulMod(x, a, m);
  }

  /** An inverse is returned whenever there is one. */
  lemma InverseComplete(a: int, m: int, v: int)
    requires m > 0 && (a * v) % m == 1 % m
    ensures Inverse(a, m).Some?
  {
    var (g, x, y) := ExtGcd(a % m, m);
    var k := DifferenceIsMultiple(a * v, 1, m);
    var j := (a / m) * v - k;
    BezoutFromInverse(a, v, k, m);
    DividesLinear(g, a % m, v, m, j);
    assert 1 % g == 0;
  }

  lemma BezoutFromInverse(a: int, v: int, k: int, m: int)
    requires m > 0 && a * v == 1 + k * m
    ensures 1 == (a % m) * v + m * ((a / m) * v - k)
  {
    var q := a / m;
    assert a == q * m + a % m;
    assert a * v == (q * v) * m + (a % m) * v;
    assert m * (q * v - k) == (q * v) * m - k * m;
  }

  // ----- primes -----

  ghost predicate Prime(p: int) {
    p >= 2 && forall d :: 2 <= d < p ==> !Divides(d, p)
  }

  lemma PrimeGcd(a: int, p: int)
    requires Prime(p) && a % p != 0
    ensures ExtGcd(a % p, p).0 == 1
  {
    var (g, x, y) := ExtGcd(a % p, p);
    assert Divides(g, p);
    assert g <= a % p by {
      if g > a % p { DivModUnique(a % p, 0, a % p, g); }
    }
  }

  lemma PrimeInverse(a: int, p: int)
    requires Prime(p) && a % p != 0
    ensures Inverse(a, p).Some?
  {
    PrimeGcd(a, p);
  }

  /** A multiple of a prime has no inverse. */
  lemma NoInverse(a: int, p: int)
    requires p >= 2 && a % p == 0
    ensures Inverse(a, p).None?
  {
    DivModUnique(1, 0, 1, p);
    if Inverse(a, p).Some? {
      MulCong(a, 0, Inverse(a, p).value, p);
      assert false;
    }
  }

  /** Left multiplication by a unit is injective on remainders. */
  lemma Cancel(a: int, b: int, c: int, m: int)
    requires m > 0 && Inverse(a, m).Some? && (a * b) % m == (a * c) % m
    ensures b % m == c % m
  {
    var v := Inverse(a, m).value;
    MulCong(a * b, a * c, v, m);
    assert (a * b) * v == (a * v) * b && (a * c) * v == (a * v) * c;
    MulCong(a * v, 1, b, m);
    MulCong(a * v, 1, c, m);
  }

  /** Euclid's lemma. */
  lemma PrimeProduct(a: int, b: int, p: int)
    requires Prime(p) && a % p != 0 && b % p != 0
    ensures (a * b) % p != 0
  {
    PrimeInverse(a, p);
    var zero := a * 0;
    DivModUnique(0, 0, 0, p);
    if (a * b) % p == 0 {
      Cancel(a, b, 0, p);
    }
  }

  // ----- there is always a larger prime -----

  lemma DividesTransitive(c: int, d: int, m: int)
    requires Divides(c, d) && Divides(d, m)
    ensures Divides(c, m)
  {
    var i, j := d / c, m / d;
    assert d == i * c && m == j * d;
    assert m == 0 + (j * i) * c by { assert j * (i * c) == (j * i) * c; }
    DividesMultiple(c, m, j * i);
  }

  lemma DividesMultiple(c: int, m: int, k: int)
    requires c != 0 && m == k * c
    ensures Divides(c, m)
  {
    if c > 0 {
      DivModUnique(m, k, 0, c);
    } else {
      assert k * c == (-k) * (-c);
      DivModUnique(m, -k, 0, -c);
      assert m % c == m % -c;
    }
  }

  /** The first divisor from d on is a prime. */
  lemma {:induction false} PrimeFactor(m: int, d: int) returns (p: int)
    requires 2 <= d <= m && forall c :: 2 <= c < d ==> !Divides(c, m)
    ensures Prime(p) && Divides(p, m)
    decreases m - d
  {
    if Divides(d, m) {
      forall c | 2 <= c < d ensures !Divides(c, d) {
        if Divides(c, d) { DividesTransitive(c, d, m); }
      }
      p := d;
    } else {
      assert d < m by { DivModUnique(m, 1, 0, m); }
      p := PrimeFactor(m, d + 1);
    }
  }

  function Factorial(n: nat): (f: int)
    ensures f >= 1
  {
    if n == 0 then 1 else n * Factorial(n - 1)
  }

  lemma {:induction false} DividesFactorial(d: int, n: nat)
    requires 1 <= d <= n
    ensures Divides(d, Factorial(n))
  {
    if d == n {
      DividesMultiple(d, Factorial(n), Factorial(n - 1));
    } else {
      DividesFactorial(d, n - 1);
      DividesMultiple(Factorial(n - 1), Factorial(n), n);
      DividesTransitive(d, Factorial(n - 1), Factorial(n));
    }
  }

  lemma PrimeAbove(n: nat) returns (p: int)
    ensures Prime(p) && p > n
  {
    p := PrimeFactor(Factorial(n) + 1, 2);
    if p <= n {
      DividesFactorial(p, n);
      DividesLinear(p, Factorial(n) + 1, 1, Factorial(n), -1);
      DivModUnique(1, 0, 1, p);
    }
  }
}
