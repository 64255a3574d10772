/** `BigInteger.modPow` with exponents of either sign, its laws on units, and Fermat's little theorem. */
module ModPower {
  import opened Wrappers
  import opened NumberTheory

  function Pow(b: int, e: nat): int {
    if e == 0 then 1 else b * Pow(b, e - 1)
  }

  /** `b.modPow(e, m)`; a negative exponent inverts the base first, which throws when there is no inverse. */
  function ModPow(b: int, e: int, m: int): Option<int> {
    if m <= 0 then None
    else if e >= 0 then Some(Pow(b, e) % m)
    else
      var i :- Inverse(b, m);
      Some(Pow(i, -e) % m)
  }

  ghost predicate Unit(a: int, m: int) {
    Inverse(a, m).Some?
  }

  /** The value of `ModPow` on units, where it never throws. */
  ghost function Exp(a: int, e: int, m: int): int {
    match ModPow(a, e, m) case Some(v) => v case None => 0
  }

  // ----- units -----

  lemma UnitCong(a: int, b: int, m: int)
    requires Unit(a, m) && a % m == b % m
    ensures Unit(b, m)
  {
    var v := Inverse(a, m).value;
    MulCong(a, b, v, m);
    InverseComplete(b, m, v);
  }

  lemma UnitMul(a: int, b: int, m: int)
    requires Unit(a, m) && Unit(b, m)
    ensures Unit(a * b, m)
  {
    var u, v := Inverse(a, m).value, Inverse(b, m).value;
    calc {
      ((a * b) * (u * v)) % m;
      { assert (a * b) * (u * v) == (a * u) * (b * v); }
      ((a * u) * (b * v)) % m;
      { MulCong(a * u, 1, b * v, m); }
      (b * v) % m;
      1 % m;
    }
    InverseComplete(a * b, m, u * v);
  }

  lemma UnitMulMod(a: int, b: int, m: int)
    requires Unit(a, m) && Unit(b, m)
    ensures Unit((a * b) % m, m)
  {
    UnitMul(a, b, m);
    ModIdem(a * b, m);
    UnitCong(a * b, (a * b) % m, m);
  }

  lemma UnitInverse(a: int, m: int)
    requires Unit(a, m)
    ensures Unit(Inverse(a, m).value, m)
  {
    var v := Inverse(a, m).value;
    assert v * a == a * v;
    InverseComplete(v, m, a);
  }

  lemma PrimeUnit(a: int, p: int)
    requires Prime(p)
    ensures Unit(a, p) <==> a % p != 0
  {
    if a % p == 0 { NoInverse(a, p); } else { PrimeInverse(a, p); }
  }

  // ----- the laws of exponents -----

  lemma ExpStep(a: int, e: int, m: int)
    requires Unit(a, m)
    ensures Exp(a, e + 1, m) == (a * Exp(a, e, m)) % m
  {
    if e >= 0 {
      MulMod(Pow(a, e), a, m);
      assert a * (Pow(a, e) % m) == (Pow(a, e) % m) * a && Pow(a, e) * a == a * Pow(a, e);
    } else {
      var i := Inverse(a, m).value;
      var q := Pow(i, -e - 1);
      assert Pow(i, -e) == i * q;
      MulMod(i * q, a, m);
      assert ((i * q) % m) * a == a * ((i * q) % m);
      assert (i * q) * a == (a * i) * q;
      MulCong(a * i, 1, q, m);
    }
  }

  lemma ExpRange(a: int, e: int, m: int)
    requires Unit(a, m)
    ensures 0 <= Exp(a, e, m) < m
  {
  }

  lemma ExpZero(a: int, m: int)
    requires Unit(a, m)
    ensures Exp(a, 0, m) == 1 % m
  {
  }

  lemma ExpOne(a: int, m: int)
    requires Unit(a, m)
    ensures Exp(a, 1, m) == a % m
  {
    assert Pow(a, 1) == a;
  }

  lemma {:induction false} ExpUnit(a: int, e: int, m: int)
    requires Unit(a, m)
    ensures Unit(Exp(a, e, m), m)
    decreases if e >= 0 then e else -e
  {
    if e == 0 {
      UnitOne(m);
      ExpZero(a, m);
    } else if e > 0 {
      ExpUnit(a, e - 1, m);
      ExpStep(a, e - 1, m);
      UnitMulMod(a, Exp(a, e - 1, m), m);
    } else {
      ExpUnit(a, e + 1, m);
      UnitInverse(a, m);
      ExpStepDown(a, e, m);
      UnitMulMod(Inverse(a, m).value, Exp(a, e + 1, m), m);
    }
  }

  lemma UnitOne(m: int)
    requires m > 0
    ensures Unit(1 % m, m)
  {
    MulMod(1, 1, m);
    InverseComplete(1 % m, m, 1);
  }

  lemma ExpStepDown(a: int, e: int, m: int)
    requires Unit(a, m)
    ensures Exp(a, e, m) == (Inverse(a, m).value * Exp(a, e + 1, m)) % m
  {
    var i, x := Inverse(a, m).value, Exp(a, e, m);
    ExpStep(a, e, m);
    MulMod(a * x, i, m);
    assert i * ((a * x) % m) == ((a * x) % m) * i && (a * x) * i == (a * i) * x;
    MulCong(a * i, 1, x, m);
    DivModUnique(x, 0, x, m);
  }

  /** Residues that agree after multiplication by a unit are equal. */
  lemma CancelResidue(a: int, x: int, y: int, m: int)
    requires Unit(a, m) && 0 <= x < m && 0 <= y < m && (a * x) % m == (a * y) % m
    ensures x == y
  {
    Cancel(a, x, y, m);
    DivModUnique(x, 0, x, m);
    DivModUnique(y, 0, y, m);
  }

  lemma {:induction false} ExpAdd(a: int, e: int, f: int, m: int)
    requires Unit(a, m)
    ensures Exp(a, e + f, m) == (Exp(a, e, m) * Exp(a, f, m)) % m
    decreases if f >= 0 then f else -f
  {
    var x := Exp(a, e, m);
    if f == 0 {
      MulMod(1, x, m);
      assert (1 % m) * x == x * (1 % m);
      DivModUnique(x, 0, x, m);
      assert Pow(a, 0) == 1;
    } else if f > 0 {
      ExpAdd(a, e, f - 1, m);
      ExpAddStep(a, e, f - 1, m);
    } else {
      ExpAdd(a, e, f + 1, m);
      ExpAddStepDown(a, e, f, m);
    }
  }

  lemma ExpAddStep(a: int, e: int, f: int, m: int)
    requires Unit(a, m) && Exp(a, e + f, m) == (Exp(a, e, m) * Exp(a, f, m)) % m
    ensures Exp(a, e + f + 1, m) == (Exp(a, e, m) * Exp(a, f + 1, m)) % m
  {
    var x, y := Exp(a, e, m), Exp(a, f, m);
    ExpStep(a, e + f, m);
    ExpStep(a, f, m);
    PullFactor(a, x, y, m);
  }

  lemma ExpAddStepDown(a: int, e: int, f: int, m: int)
    requires Unit(a, m) && Exp(a, e + f + 1, m) == (Exp(a, e, m) * Exp(a, f + 1, m)) % m
    ensures Exp(a, e + f, m) == (Exp(a, e, m) * Exp(a, f, m)) % m
  {
    ExpStep(a, e + f, m);
    ExpStep(a, f, m);
    PullFactor(a, Exp(a, e, m), Exp(a, f, m), m);
    CancelResidue(a, Exp(a, e + f, m), (Exp(a, e, m) * Exp(a, f, m)) % m, m);
  }

  lemma PullFactor(a: int, x: int, y: int, m: int)
    requires m > 0
    ensures (x * ((a * y) % m)) % m == (a * ((x * y) % m)) % m
  {
    MulRight(x, a * y, m);
    MulRight(a, x * y, m);
    assert x * (a * y) == a * (x * y);
  }

  lemma MulRight(a: int, b: int, m: int)
    requires m > 0
    ensures (a * (b % m)) % m == (a * b) % m
  {
    MulMod(b, a, m);
    assert a * (b % m) == (b % m) * a && a * b == b * a;
  }

  lemma {:induction false} ExpMul(a: int, e: int, f: int, m: int)
    requires Unit(a, m)
    ensures Exp(Exp(a, e, m), f, m) == Exp(a, e * f, m)
    decreases if f >= 0 then f else -f
  {
    var b := Exp(a, e, m);
    ExpUnit(a, e, m);
    if f == 0 {
      assert e * f == 0;
      assert Pow(a, 0) == 1 && Pow(b, 0) == 1;
    } else if f > 0 {
      ExpMul(a, e, f - 1, m);
      ExpStep(b, f - 1, m);
      ExpAdd(a, e, e * (f - 1), m);
      assert e + e * (f - 1) == e * f;
    } else {
      ExpMul(a, e, f + 1, m);
      ExpStep(b, f, m);
      ExpAdd(a, e, e * f, m);
      assert e + e * f == e * (f + 1);
      ExpRange(b, f, m);
      ExpRange(a, e * f, m);
      CancelResidue(b, Exp(b, f, m), Exp(a, e * f, m), m);
    }
  }

  lemma Regroup(a: int, x: int, b: int, y: int)
    ensures (a * x) * (b * y) == (a * b) * (x * y)
  {
    assert (a * x) * (b * y) == a * (x * (b * y));
    assert x * (b * y) == b * (x * y);
  }

  // ----- Fermat's little theorem -----

  ghost function Product(s: seq<int>): int {
    if s == [] then 1 else s[0] * Product(s[1..])
  }

  lemma {:induction false} ProductAppend(s: seq<int>, t: seq<int>)
    ensures Product(s + t) == Product(s) * Product(t)
  {
    if s == [] {
      assert s + t == t;
    } else {
      assert (s + t)[1..] == s[1..] + t;
      ProductAppend(s[1..], t);
      assert s[0] * (Product(s[1..]) * Product(t)) == (s[0] * Product(s[1..])) * Product(t);
    }
  }

  lemma {:induction false} ProductPermuted(s: seq<int>, t: seq<int>)
    requires multiset(s) == multiset(t)
    ensures Product(s) == Product(t)
  {
    if s == [] {
      assert |t| == |multiset(t)| == |multiset(s)| == 0;
    } else {
      var u, w := RemoveFirst(s, t);
      ProductPermuted(s[1..], u + w);
      ProductPull(u, s[0], w);
    }
  }

  lemma RemoveFirst(s: seq<int>, t: seq<int>) returns (u: seq<int>, w: seq<int>)
    requires s != [] && multiset(s) == multiset(t)
    ensures t == u + ([s[0]] + w) && multiset(s[1..]) == multiset(u + w)
  {
    var x := s[0];
    assert x in multiset(t);
    var i :| 0 <= i < |t| && t[i] == x;
    u, w := t[..i], t[i + 1..];
    assert s == [x] + s[1..];
    assert t == u + ([x] + w);
    assert multiset(s[1..]) == multiset(s) - multiset{x};
    assert multiset(u + w) == multiset(t) - multiset{x};
  }

  lemma ProductPull(u: seq<int>, x: int, w: seq<int>)
    ensures Product(u + ([x] + w)) == x * Product(u + w)
  {
    ProductAppend(u, [x] + w);
    ProductAppend(u, w);
    assert ([x] + w)[1..] == w;
    assert Product(u) * (x * Product(w)) == x * (Product(u) * Product(w));
  }

  ghost predicate Distinct(s: seq<int>) {
    forall i, j :: 0 <= i < j < |s| ==> s[i] != s[j]
  }

  lemma {:induction false} DistinctCount(s: seq<int>, x: int)
    requires Distinct(s)
    ensures multiset(s)[x] == if x in s then 1 else 0
  {
    if s != [] {
      assert s == [s[0]] + s[1..];
      DistinctCount(s[1..], x);
    }
  }

  lemma DistinctPermuted(s: seq<int>, t: seq<int>)
    requires Distinct(s) && Distinct(t) && (forall x :: x in s <==> x in t)
    ensures multiset(s) == multiset(t)
  {
    forall x ensures multiset(s)[x] == multiset(t)[x] {
      DistinctCount(s, x);
      DistinctCount(t, x);
    }
  }

  /** [a, 2a, ..., na] mod p. */
  ghost function Multiples(a: int, n: nat, p: int): (s: seq<int>)
    requires p > 0
    ensures |s| == n && forall i :: 0 <= i < n ==> s[i] == (a * (i + 1)) % p
  {
    seq(n, i => (a * (i + 1)) % p)
  }

  lemma {:induction false} MultiplesProduct(a: int, n: nat, p: int)
    requires p > 0
    ensures Product(Multiples(a, n, p)) % p == (Pow(a, n) * Product(Multiples(1, n, p))) % p
  {
    if n > 0 {
      var s, t := Multiples(a, n - 1, p), Multiples(1, n - 1, p);
      var x, y := (a * n) % p, n % p;
      assert Multiples(a, n, p) == s + [x];
      assert Multiples(1, n, p) == t + [y];
      ProductAppend(s, [x]);
      ProductAppend(t, [y]);
      assert Product([x]) == x && Product([y]) == y;
      MultiplesProduct(a, n - 1, p);
      assert Pow(a, n) == a * Pow(a, n - 1);
      ScaledProduct(Product(s), Product(t), Pow(a, n - 1), a, n, p);
    }
  }

  /** One more factor on both sides of `MultiplesProduct`. */
  lemma ScaledProduct(s: int, t: int, w: int, a: int, n: int, p: int)
    requires p > 0 && s % p == (w * t) % p
    ensures (s * ((a * n) % p)) % p == ((a * w) * (t * (n % p))) % p
  {
    MulCong(s, w * t, (a * n) % p, p);
    MulRight(w * t, a * n, p);
    Regroup(a, w, t, n);
    MulRight(t, n, p);
    MulRight(a * w, t * (n % p), p);
    MulRight(a * w, t * n, p);
    Regroup(w, t, a, n);
    assert w * a == a * w;
  }

  lemma MultiplesPermuted(a: int, p: int)
    requires Prime(p) && a % p != 0
    ensures multiset(Multiples(a, p - 1, p)) == multiset(Multiples(1, p - 1, p))
  {
    var s, t := Multiples(a, p - 1, p), Multiples(1, p - 1, p);
    forall i | 0 <= i < p - 1 ensures t[i] == i + 1 {
      DivModUnique(i + 1, 0, i + 1, p);
    }
    MultiplesDistinct(a, p);
    forall i | 0 <= i < p - 1 ensures s[i] in t {
      DivModUnique(i + 1, 0, i + 1, p);
      PrimeProduct(a, i + 1, p);
      assert t[s[i] - 1] == s[i];
    }
    forall x | x in t ensures x in s {
      MultiplesOnto(a, x, p);
    }
    DistinctPermuted(s, t);
  }

  lemma MultiplesDistinct(a: int, p: int)
    requires Prime(p) && a % p != 0
    ensures Distinct(Multiples(a, p - 1, p))
  {
    var s := Multiples(a, p - 1, p);
    PrimeInverse(a, p);
    forall i, j | 0 <= i < j < p - 1 ensures s[i] != s[j] {
      if s[i] == s[j] { CancelResidue(a, i + 1, j + 1, p); }
    }
  }

  lemma MultiplesOnto(a: int, x: int, p: int)
    requires Prime(p) && a % p != 0 && 1 <= x < p
    ensures x in Multiples(a, p - 1, p)
  {
    PrimeUnit(a, p);
    var v := Inverse(a, p).value;
    UnitInverse(a, p);
    PrimeUnit(v, p);
    DivModUnique(x, 0, x, p);
    PrimeProduct(v, x, p);
    var j := (v * x) % p;
    assert (a * j) % p == x by {
      MulRight(a, v * x, p);
      assert a * (v * x) == (a * v) * x;
      MulCong(a * v, 1, x, p);
    }
    assert Multiples(a, p - 1, p)[j - 1] == x;
  }

  lemma {:induction false} FactorialUnit(n: nat, p: int)
    requires Prime(p) && n < p
    ensures Product(Multiples(1, n, p)) % p != 0
  {
    if n == 0 {
      DivModUnique(1, 0, 1, p);
    } else {
      var t := Multiples(1, n - 1, p);
      DivModUnique(n, 0, n, p);
      assert Multiples(1, n, p) == t + [n];
      ProductAppend(t, [n]);
      FactorialUnit(n - 1, p);
      PrimeProduct(Product(t), n, p);
    }
  }

  /** Fermat's little theorem. */
  lemma Fermat(a: int, p: int)
    requires Prime(p) && a % p != 0
    ensures Exp(a, p - 1, p) == 1
  {
    var f := Product(Multiples(1, p - 1, p));
    MultiplesPermuted(a, p);
    ProductPermuted(Multiples(a, p - 1, p), Multiples(1, p - 1, p));
    MultiplesProduct(a, p - 1, p);
    FactorialUnit(p - 1, p);
    PrimeInverse(f, p);
    assert (f * Pow(a, p - 1)) % p == (f * 1) % p by {
      assert f * Pow(a, p - 1) == Pow(a, p - 1) * f;
    }
    Cancel(f, Pow(a, p - 1), 1, p);
    DivModUnique(1, 0, 1, p);
  }

  /** Exponents may be reduced modulo p - 1. */
  lemma ExpReduce(a: int, e: int, f: int, k: int, p: int)
    requires Prime(p) && a % p != 0 && e == f + k * (p - 1)
    ensures Exp(a, e, p) == Exp(a, f, p)
  {
    PrimeUnit(a, p);
    ExpAdd(a, f, k * (p - 1), p);
    assert k * (p - 1) == (p - 1) * k;
    ExpMul(a, p - 1, k, p);
    Fermat(a, p);
    ExpOfOne(k, p);
    DivModUnique(Exp(a, f, p), 0, Exp(a, f, p), p);
  }

  lemma {:induction false} ExpOfOne(e: int, p: int)
    requires p >= 2
    ensures Unit(1, p) && Exp(1, e, p) == 1
    decreases if e >= 0 then e else -e
  {
    DivModUnique(1, 0, 1, p);
    InverseComplete(1, p, 1);
    if e == 0 {
      assert Pow(1, 0) == 1;
    } else if e > 0 {
      ExpOfOne(e - 1, p);
      ExpStep(1, e - 1, p);
    } else {
      ExpOfOne(e + 1, p);
      ExpStep(1, e, p);
      DivModUnique(Exp(1, e, p), 0, Exp(1, e, p), p);
    }
  }
}
