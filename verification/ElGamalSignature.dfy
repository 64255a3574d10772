/** Plain ElGamal signatures (`ElGamalSigner` and the same code in `ElGamal`). */
module ElGamalSignature {
  import opened Wrappers
  import opened NumberTheory
  import opened ModPower
  import opened Sigma

  datatype Signature = Signature(r: int, s: int)

  /** The exponents the drawing loop stops at. */
  predicate Suitable(k: int, p: int) {
    k > 1 && p > 0 && ExtGcd(k, p).0 == 1
  }

  /** `sign` on the digest m with exponent k; `None` when `modInverse` throws. */
  function SignWith(key: KeyPair, m: int, k: int): Option<Signature> {
    var order := key.pub.p - 1;
    var l :- Inverse(k, order);
    var r :- ModPow(key.pub.g, k, key.pub.p);
    Some(Signature(r, l * ((m - r * key.x) % order)))
  }

  /** `verify` on the digest m. */
  function Verify(key: Key, m: int, sign: Signature): Option<bool> {
    var v :- ModPow(key.g, m, key.p);
    var yPowR :- ModPow(key.y, sign.r, key.p);
    var rPowS :- ModPow(sign.r, sign.s, key.p);
    Some(v == (yPowR * rPowS) % key.p)
  }

  /** The first suitable draw. */
  function FirstSuitable(draws: seq<int>, p: int): (k: int)
    requires exists i :: 0 <= i < |draws| && Suitable(draws[i], p)
    ensures Suitable(k, p)
    ensures exists i :: 0 <= i < |draws| && draws[i] == k && forall j :: 0 <= j < i ==> !Suitable(draws[j], p)
  {
    if Suitable(draws[0], p) then draws[0]
    else
      assert exists i :: 0 <= i < |draws[1..]| && Suitable(draws[1..][i], p) by {
        var i :| 0 <= i < |draws| && Suitable(draws[i], p);
        assert draws[1..][i - 1] == draws[i];
      }
      FirstSuitable(draws[1..], p)
  }

  /** `sign`: draws until an exponent is suitable. */
  method Sign(key: KeyPair, m: int, draws: seq<int>) returns (sign: Option<Signature>)
    requires exists i :: 0 <= i < |draws| && Suitable(draws[i], key.pub.p)
    ensures sign == SignWith(key, m, FirstSuitable(draws, key.pub.p))
  {
    var i := 0;
    while !Suitable(draws[i], key.pub.p)
      invariant 0 <= i < |draws|
      invariant exists j :: 0 <= j < |draws[i..]| && Suitable(draws[i..][j], key.pub.p)
      invariant FirstSuitable(draws[i..], key.pub.p) == FirstSuitable(draws, key.pub.p)
      decreases |draws| - i
    {
      ghost var j :| 0 <= j < |draws[i..]| && Suitable(draws[i..][j], key.pub.p);
      assert draws[i..][0] == draws[i] && draws[i..][1..] == draws[i + 1..];
      assert draws[i + 1..][j - 1] == draws[i..][j];
      i := i + 1;
    }
    assert draws[i..][0] == draws[i];
    sign := SignWith(key, m, draws[i]);
  }

  /** x r + k s = m modulo p - 1. */
  lemma ExponentAlgebra(x: int, r: int, k: int, l: int, m: int, n: int) returns (c: int)
    requires n > 0 && (k * l) % n == 1 % n
    ensures x * r + k * (l * ((m - r * x) % n)) == m + c * n
  {
    var z := (m - r * x) % n;
    var a := DifferenceIsMultiple(k * l, 1, n);
    ModIdem(m - r * x, n);
    var b := DifferenceIsMultiple(z, m - r * x, n);
    c := b + a * z;
    calc {
      x * r + k * (l * z);
      { assert k * (l * z) == (k * l) * z; }
      x * r + (1 + a * n) * z;
      { assert (1 + a * n) * z == z + (a * z) * n; }
      x * r + z + (a * z) * n;
      { assert z == m - r * x + b * n && x * r == r * x; }
      m + b * n + (a * z) * n;
      { assert b * n + (a * z) * n == c * n; }
      m + c * n;
    }
  }

  /**
   * `sign` returns exactly when k has an inverse mod p - 1; its result is then accepted for every digest that gives
   * the same power of g, and for no other; the signed digest may be negative and s is not reduced.
   */
  lemma SignatureComplete(key: KeyPair, m: int, k: int, m': int)
    requires WellFormedPair(key)
    ensures SignWith(key, m, k).Some? <==> Inverse(k, key.pub.p - 1).Some?
    ensures SignWith(key, m, k).Some? ==>
              Verify(key.pub, m', SignWith(key, m, k).value)
              == Some(Exp(key.pub.g, m', key.pub.p) == Exp(key.pub.g, m, key.pub.p))
  {
    var (p, g, x) := (key.pub.p, key.pub.g, key.x);
    KeyUnits(key.pub);
    if SignWith(key, m, k).Some? {
      var l, r := Inverse(k, p - 1).value, Exp(g, k, p);
      var s := l * ((m - r * x) % (p - 1));
      ExpUnit(g, k, p);
      ExpMul(g, x, r, p);
      ExpMul(g, k, s, p);
      ExpAdd(g, x * r, k * s, p);
      var c := ExponentAlgebra(x, r, k, l, m, p - 1);
      ExpReduce(g, x * r + k * s, m, c, p);
    }
  }

  /** For a prime modulus every exponent above 1 that is no multiple of it stops the loop. */
  lemma SuitableExactly(k: int, p: int)
    requires Prime(p)
    ensures Suitable(k, p) <==> k > 1 && k % p != 0
  {
    if k > 1 {
      var (g, x, y) := ExtGcd(k, p);
      if g > p { DivModUnique(p, 0, p, g); }
      assert g == 1 || g == p;
      if k % p == 0 && g == 1 {
        DividesLinear(p, k, x, p, y);
        DivModUnique(1, 0, 1, p);
        assert false;
      }
    }
  }

  lemma PrimeInverseExactly(k: int, n: int)
    requires Prime(k) && n > 0
    ensures Inverse(k, n).Some? <==> n % k != 0
  {
    var (g, x, y) := ExtGcd(k % n, n);
    if n % k == 0 {
      if Inverse(k, n).Some? { NoUnitOfDivisor(k, n, Inverse(k, n).value); }
    } else {
      DividesLinear(g, k % n, 1, n, k / n);
      assert Divides(g, k) by { assert k == (k % n) * 1 + n * (k / n); }
      if g > k { DivModUnique(k, 0, k, g); }
      assert g == 1 || g == k;
    }
  }

  lemma NoUnitOfDivisor(k: int, n: int, v: int)
    requires k >= 2 && n > 0 && n % k == 0
    ensures (k * v) % n != 1 % n
  {
    var q := n / k;
    assert n == k * q;
    MulAtLeast(q, k);
    DivModUnique(1, 0, 1, n);
    if (k * v) % n == 1 {
      var c := DifferenceIsMultiple(k * v, 1, n);
      Regrouped(k, v, c, q);
      NoInverseFactor(k, v - c * q);
    }
  }

  lemma Regrouped(k: int, v: int, c: int, q: int)
    ensures k * v - c * (k * q) == k * (v - c * q)
  {
    assert c * (k * q) == k * (c * q);
  }

  lemma NoInverseFactor(k: int, d: int)
    requires k >= 2
    ensures k * d != 1
  {
    MulAtLeast(d, k);
    MulAtLeast(-d, k);
  }

  lemma PrimeResidue(k: int, p: int)
    requires Prime(k) && Prime(p)
    ensures k % p != 0 <==> k != p
  {
    if k < p { DivModUnique(k, 0, k, p); }
    if k > p { assert !Divides(p, k); }
    if k == p { DivModUnique(k, 1, 0, p); }
  }

  /** The loop tests p where the inverse needs p - 1: for a prime exponent `sign` throws exactly if it divides p - 1. */
  lemma PrimeDrawExactly(key: KeyPair, m: int, k: int)
    requires WellFormedPair(key) && Prime(k)
    ensures Suitable(k, key.pub.p) <==> k != key.pub.p
    ensures SignWith(key, m, k).Some? <==> (key.pub.p - 1) % k != 0
  {
    SuitableExactly(k, key.pub.p);
    PrimeResidue(k, key.pub.p);
    PrimeInverseExactly(k, key.pub.p - 1);
    SignatureComplete(key, m, k, m);
  }

  /**
   * Whoever made them: two accepted signatures with the same r satisfy one equation between the digests and the
   * exponents s. In particular one signature is accepted only for digests with the same power of g.
   */
  lemma AcceptedEquation(key: Key, m: int, sign: Signature, m': int, sign': Signature)
    requires WellFormed(key) && sign.r == sign'.r && sign.r % key.p != 0
    requires Verify(key, m, sign) == Some(true) && Verify(key, m', sign') == Some(true)
    ensures Exp(key.g, m - m', key.p) == Exp(sign.r, sign.s - sign'.s, key.p)
  {
    var p := key.p;
    KeyUnits(key);
    PrimeUnit(sign.r, p);
    ExpUnit(key.y, sign.r, p);
    var y := Exp(key.y, sign.r, p);
    assert y * Exp(sign.r, sign.s, p) == Exp(sign.r, sign.s, p) * y;
    assert y * Exp(sign.r, sign'.s, p) == Exp(sign.r, sign'.s, p) * y;
    ExtractEquation(key.g, sign.r, y, sign.s, m, sign'.s, m', p);
  }

  lemma SignatureAccepted(key: KeyPair, m: int, k: int)
    requires WellFormedPair(key) && SignWith(key, m, k).Some?
    ensures Verify(key.pub, m, SignWith(key, m, k).value) == Some(true)
  {
    SignatureComplete(key, m, k, m);
  }
}
