/** The non-interactive proofs of a private contract signature and the checks of their receiver. */
module Sigma {
  import opened Wrappers
  import opened NumberTheory
  import opened ModPower
  import opened SignedXor

  /** The SHA-256 digest of a message and a mask, read as a signed number. */
  type Hash = (string, int) -> int

  datatype Key = Key(p: int, g: int, y: int)

  datatype KeyPair = KeyPair(pub: Key, x: int)

  datatype Masks = Masks(a: int, aBis: Option<int>)

  datatype Responses =
    | Schnorr(masks: Masks, challenge: int, response: int)
    | CCE(masks: Masks, challenge: int, response: int)
    | CCD(masks: Masks, challenge: int, response: int)

  /** `m` is the number `new BigInteger(M)` of the encrypted bytes. */
  datatype ResEncrypt = ResEncrypt(u: int, v: int, m: int)

  datatype And = And(rK: map<Responses, Key>, res: ResEncrypt, responses: seq<Responses>)

  datatype Or = Or(a: int, ands: seq<And>)

  /** `a.divide(b)`: truncating division, or a throw. */
  function Quotient(a: int, b: int): Option<int> {
    if b == 0 then None
    else if a >= 0 then Some(a / b)
    else Some(-((-a) / b))
  }

  /** The Boolean that `response.Verifies(key, res)` returns, or `None` when it throws. */
  function Verifies(response: Responses, key: Key, res: ResEncrypt): Option<bool> {
    var (a, c, r) := (response.masks.a, response.challenge, response.response);
    match response
    case Schnorr(_, _, _) =>
      var gPowR :- ModPow(key.g, r, key.p);
      var yPowC :- ModPow(key.y, c, key.p);
      Some(gPowR == (yPowC * a) % key.p)
    case CCE(_, _, _) =>
      var gPowR :- ModPow(key.g, r, key.p);
      var uPowC :- ModPow(res.u, c, key.p);
      if gPowR != (uPowC * a) % key.p then Some(false)
      else
        var yPowR :- ModPow(key.y, r, key.p);
        var w :- Quotient(res.v, res.m);
        var wPowC :- ModPow(w, c, key.p);
        var aBis :- response.masks.aBis;
        Some(yPowR == (wPowC * aBis) % key.p)
    case CCD(_, _, _) =>
      var gPowR :- ModPow(key.g, r, key.p);
      var yPowC :- ModPow(key.y, c, key.p);
      if gPowR != (yPowC * a) % key.p then Some(false)
      else
        var uPowR :- ModPow(res.u, r, key.p);
        var w :- Quotient(res.v, res.m);
        var wPowC :- ModPow(w, c, key.p);
        var aBis :- response.masks.aBis;
        Some(uPowR == (wPowC * aBis) % key.p)
  }

  /** The verdict on a list of responses: the first one that does not verify decides. */
  function AllVerify(and: And, responses: seq<Responses>): Option<bool>
    decreases |responses|
  {
    if responses == [] then Some(true)
    else if responses[0] !in and.rK then None
    else
      var ok :- Verifies(responses[0], and.rK[responses[0]], and.res);
      if ok then AllVerify(and, responses[1..]) else Some(false)
  }

  function AndVerifies(and: And): Option<bool> {
    AllVerify(and, and.responses)
  }

  function AndsVerify(ands: seq<And>): Option<bool>
    decreases |ands|
  {
    if ands == [] then Some(true)
    else
      var ok :- AndVerifies(ands[0]);
      if ok then AndsVerify(ands[1..]) else Some(false)
  }

  function ChallengesOf(responses: seq<Responses>): (cs: seq<int>)
    ensures |cs| == |responses| && forall i :: 0 <= i < |cs| ==> cs[i] == responses[i].challenge
  {
    seq(|responses|, i requires 0 <= i < |responses| => responses[i].challenge)
  }

  function Challenges(ands: seq<And>): seq<int>
    decreases |ands|
  {
    if ands == [] then [] else ChallengesOf(ands[0].responses) + Challenges(ands[1..])
  }

  /** Every clause verifies and the challenges add up to the digest of message and mask. */
  function OrVerifies(hash: Hash, o: Or, m: string): Option<bool> {
    var ok :- AndsVerify(o.ands);
    Some(ok && XorFold(0, Challenges(o.ands)) == hash(m, o.a))
  }

  // ----- the loops of the receiver -----

  method CheckAnd(and: And) returns (ok: Option<bool>)
    ensures ok == AndVerifies(and)
  {
    for i := 0 to |and.responses|
      invariant AndVerifies(and) == AllVerify(and, and.responses[i..])
    {
      var res := and.responses[i];
      assert and.responses[i..][0] == res && and.responses[i..][1..] == and.responses[i + 1..];
      if res !in and.rK { return None; }
      var good := Verifies(res, and.rK[res], and.res);
      if good != Some(true) { return good; }
    }
    return Some(true);
  }

  method CheckChallenges(hash: Hash, m: string, a: int, challenge: seq<int>) returns (ok: bool)
    ensures ok == (XorFold(0, challenge) == hash(m, a))
  {
    var challenges := 0;
    for i := 0 to |challenge|
      invariant XorFold(challenges, challenge[i..]) == XorFold(0, challenge)
    {
      assert challenge[i..][1..] == challenge[i + 1..];
      challenges := Xor(challenges, challenge[i]);
    }
    return challenges == hash(m, a);
  }

  method AddChallenges(challenges: seq<int>, responses: seq<Responses>) returns (all: seq<int>)
    ensures all == challenges + ChallengesOf(responses)
  {
    all := challenges;
    for j := 0 to |responses|
      invariant all == challenges + ChallengesOf(responses)[..j]
    {
      all := all + [responses[j].challenge];
    }
    assert ChallengesOf(responses)[..|responses|] == ChallengesOf(responses);
  }

  method CheckOr(hash: Hash, o: Or, m: string) returns (ok: Option<bool>)
    ensures ok == OrVerifies(hash, o, m)
  {
    var challenges := [];
    for i := 0 to |o.ands|
      invariant AndsVerify(o.ands) == AndsVerify(o.ands[i..])
      invariant challenges + Challenges(o.ands[i..]) == Challenges(o.ands)
    {
      var and := o.ands[i];
      assert o.ands[i..][0] == and && o.ands[i..][1..] == o.ands[i + 1..];
      var good := CheckAnd(and);
      if good != Some(true) { return good; }
      ghost var before := challenges;
      challenges := AddChallenges(challenges, and.responses);
      AppendAssociates(before, ChallengesOf(and.responses), Challenges(o.ands[i + 1..]));
    }
    assert challenges + [] == challenges;
    var closed := CheckChallenges(hash, m, o.a, challenges);
    return Some(closed);
  }

  // ----- keys -----

  ghost predicate WellFormed(k: Key) {
    Prime(k.p) && k.g % k.p != 0 && k.y % k.p != 0
  }

  ghost predicate WellFormedPair(k: KeyPair) {
    WellFormed(k.pub) && k.pub.y == Exp(k.pub.g, k.x, k.pub.p)
  }

  lemma KeyUnits(k: Key)
    requires WellFormed(k)
    ensures k.p >= 2 && Unit(k.g, k.p) && Unit(k.y, k.p)
  {
    PrimeUnit(k.g, k.p);
    PrimeUnit(k.y, k.p);
  }

  lemma ExactQuotient(y: int, m: int)
    requires m != 0
    ensures Quotient(y * m, m) == Some(y)
  {
    if m > 0 {
      DivModUnique(y * m, y, 0, m);
      DivModUnique(-(y * m), -y, 0, m);
    } else {
      assert y * m == (-y) * (-m) && -(y * m) == y * (-m);
      NegativeDivisor(y * m, m);
      NegativeDivisor(-(y * m), m);
      DivModUnique(y * m, -y, 0, -m);
      DivModUnique(-(y * m), y, 0, -m);
    }
  }

  /** `divide` truncates towards zero: what remains is less than the divisor and has the sign of the dividend. */
  lemma QuotientTruncates(a: int, b: int)
    ensures Quotient(a, b).Some? <==> b != 0
    ensures b != 0 ==>
              var rest := a - Quotient(a, b).value * b;
              && (b > 0 ==> -b < rest < b) && (b < 0 ==> b < rest < -b)
              && (a >= 0 ==> rest >= 0) && (a <= 0 ==> rest <= 0)
  {
    if b != 0 {
      var n := if a >= 0 then a else -a;
      assert n == (n / b) * b + n % b;
      if a < 0 { assert (-(n / b)) * b == -((n / b) * b); }
    }
  }

  lemma NegativeDivisor(a: int, m: int)
    requires m < 0
    ensures a / m == -(a / -m)
  {
  }

  // ----- completeness: what honest and simulated provers send is accepted -----

  /** The exponent equation behind every response: b^(x c + s) = (b^x)^c b^s. */
  lemma ResponseEquation(b: int, x: int, c: int, s: int, m: int)
    requires Unit(b, m)
    ensures Exp(b, x * c + s, m) == (Exp(Exp(b, x, m), c, m) * Exp(b, s, m)) % m
  {
    ExpAdd(b, x * c, s, m);
    ExpMul(b, x, c, m);
  }

  /** The mask equation behind every simulation: w^c (b^r (w^c)^-1) = b^r. */
  lemma SimulationEquation(b: int, w: int, c: int, r: int, m: int)
    requires Unit(b, m) && Unit(w, m)
    ensures var i := Inverse(Exp(w, c, m), m);
            i.Some? && Exp(b, r, m) == (Exp(w, c, m) * (Exp(b, r, m) * i.value)) % m
  {
    ExpUnit(w, c, m);
    ExpRange(b, r, m);
    SimulationAlgebra(Exp(w, c, m), Exp(b, r, m), Inverse(Exp(w, c, m), m).value, m);
  }

  lemma SimulationAlgebra(z: int, x: int, i: int, m: int)
    requires 0 <= x < m && (z * i) % m == 1 % m
    ensures (z * (x * i)) % m == x
  {
    assert z * (x * i) == (z * i) * x;
    MulCong(z * i, 1, x, m);
    DivModUnique(x, 0, x, m);
  }

  lemma SchnorrComplete(k: KeyPair, s: int, c: int, res: ResEncrypt)
    requires WellFormedPair(k)
    ensures Verifies(Schnorr(Masks(Exp(k.pub.g, s, k.pub.p), None), c, k.x * c + s), k.pub, res) == Some(true)
  {
    KeyUnits(k.pub);
    ResponseEquation(k.pub.g, k.x, c, s, k.pub.p);
  }

  /** A ciphertext of the form (g^k, y^k m). */
  ghost predicate Encrypts(t: Key, k: int, res: ResEncrypt) {
    res.u == Exp(t.g, k, t.p) && res.v == Exp(t.y, k, t.p) * res.m && res.m != 0
  }

  lemma EncryptionUnits(t: Key, k: int, res: ResEncrypt)
    requires WellFormed(t) && Encrypts(t, k, res)
    ensures Unit(res.u, t.p) && Quotient(res.v, res.m) == Some(Exp(t.y, k, t.p))
    ensures Unit(Exp(t.y, k, t.p), t.p)
  {
    KeyUnits(t);
    ExpUnit(t.g, k, t.p);
    ExpUnit(t.y, k, t.p);
    ExactQuotient(Exp(t.y, k, t.p), res.m);
  }

  lemma CceComplete(t: Key, k: int, res: ResEncrypt, s: int, c: int)
    requires WellFormed(t) && Encrypts(t, k, res)
    ensures Verifies(CCE(Masks(Exp(t.g, s, t.p), Some(Exp(t.y, s, t.p))), c, k * c + s), t, res) == Some(true)
  {
    KeyUnits(t);
    EncryptionUnits(t, k, res);
    ResponseEquation(t.g, k, c, s, t.p);
    ResponseEquation(t.y, k, c, s, t.p);
  }

  lemma CcdComplete(t: KeyPair, k: int, res: ResEncrypt, s: int, c: int)
    requires WellFormedPair(t) && Encrypts(t.pub, k, res)
    ensures Verifies(CCD(Masks(Exp(t.pub.g, s, t.pub.p), Some(Exp(res.u, s, t.pub.p))), c, t.x * c + s), t.pub, res)
            == Some(true)
  {
    var p := t.pub.p;
    KeyUnits(t.pub);
    EncryptionUnits(t.pub, k, res);
    ResponseEquation(t.pub.g, t.x, c, s, p);
    ResponseEquation(res.u, t.x, c, s, p);
    ExpMul(t.pub.g, k, t.x, p);
    ExpMul(t.pub.g, t.x, k, p);
    assert k * t.x == t.x * k;
  }

  // ----- special soundness: two accepting transcripts with the same masks -----

  /** b^r = w^c a and b^r' = w^c' a give b^(r-r') = w^(c-c'), whatever w is. */
  lemma ExtractEquation(b: int, w: int, a: int, c: int, r: int, c': int, r': int, p: int)
    requires Prime(p) && b % p != 0
    requires ModPow(w, c, p).Some? && Exp(b, r, p) == (Exp(w, c, p) * a) % p
    requires ModPow(w, c', p).Some? && Exp(b, r', p) == (Exp(w, c', p) * a) % p
    ensures Exp(b, r - r', p) == Exp(w, c - c', p)
  {
    PrimeUnit(b, p);
    if w % p == 0 {
      ExtractZero(b, w, a, c, r, c', r', p);
    } else {
      PrimeUnit(w, p);
      ExtractUnit(b, w, a, c, r, c', r', p);
    }
  }

  lemma ExtractZero(b: int, w: int, a: int, c: int, r: int, c': int, r': int, p: int)
    requires Prime(p) && Unit(b, p) && w % p == 0
    requires ModPow(w, c, p).Some? && Exp(b, r, p) == (Exp(w, c, p) * a) % p
    requires ModPow(w, c', p).Some? && Exp(b, r', p) == (Exp(w, c', p) * a) % p
    ensures Exp(b, r - r', p) == Exp(w, c - c', p)
  {
    ZeroChallenge(b, w, a, c, r, p);
    ZeroChallenge(b, w, a, c', r', p);
    ExpSame(b, r, r', p);
    DivModUnique(1, 0, 1, p);
    assert Pow(w, 0) == 1;
  }

  lemma ExtractUnit(b: int, w: int, a: int, c: int, r: int, c': int, r': int, m: int)
    requires Unit(b, m) && Unit(w, m)
    requires Exp(b, r, m) == (Exp(w, c, m) * a) % m
    requires Exp(b, r', m) == (Exp(w, c', m) * a) % m
    ensures Exp(b, r - r', m) == Exp(w, c - c', m)
  {
    ExpAdd(b, r', r - r', m);
    ExpAdd(w, c', c - c', m);
    var e, d := Exp(b, r - r', m), Exp(w, c - c', m);
    ExtractAlgebra(Exp(w, c', m), d, Exp(b, r', m), e, a, m);
    ExpUnit(b, r', m);
    ExpRange(b, r - r', m);
    ExpRange(w, c - c', m);
    CancelResidue(Exp(b, r', m), e, d, m);
  }

  lemma ExtractAlgebra(z: int, d: int, x: int, e: int, a: int, p: int)
    requires p > 0 && x == (z * a) % p && (x * e) % p == (((z * d) % p) * a) % p
    ensures (x * e) % p == (x * d) % p
  {
    MulMod(z * d, a, p);
    MulMod(z * a, d, p);
    assert (z * d) * a == (z * a) * d;
  }

  /** A multiple of p verifies only under the challenge 0. */
  lemma ZeroChallenge(b: int, w: int, a: int, c: int, r: int, p: int)
    requires Prime(p) && Unit(b, p) && w % p == 0
    requires ModPow(w, c, p).Some? && Exp(b, r, p) == (Exp(w, c, p) * a) % p
    ensures c == 0 && Exp(b, r, p) == a % p
  {
    NoInverse(w, p);
    ExpUnit(b, r, p);
    PrimeUnit(Exp(b, r, p), p);
    ExpRange(b, r, p);
    DivModUnique(Exp(b, r, p), 0, Exp(b, r, p), p);
    DivModUnique(1, 0, 1, p);
    DivModUnique(0, 0, 0, p);
    if c > 0 {
      MulCong(w, 0, Pow(w, c - 1), p);
      assert false;
    }
    assert Pow(w, 0) == 1;
  }

  lemma ExpSame(b: int, r: int, r': int, p: int)
    requires Prime(p) && Unit(b, p) && Exp(b, r, p) == Exp(b, r', p)
    ensures Exp(b, r - r', p) == 1
  {
    ExpAdd(b, r', r - r', p);
    ExpUnit(b, r', p);
    var x, e := Exp(b, r', p), Exp(b, r - r', p);
    DivModUnique(x, 0, x, p);
    assert x * 1 == x;
    CancelResidue(x, e, 1, p);
  }

  /** What two accepting transcripts with the same masks reveal. */
  ghost predicate Extracted(first: Responses, second: Responses, key: Key, res: ResEncrypt) {
    var (r, c) := (first.response - second.response, first.challenge - second.challenge);
    match first
    case Schnorr(_, _, _) => Exp(key.g, r, key.p) == Exp(key.y, c, key.p)
    case CCE(_, _, _) =>
      && Exp(key.g, r, key.p) == Exp(res.u, c, key.p)
      && Quotient(res.v, res.m).Some?
      && Exp(key.y, r, key.p) == Exp(Quotient(res.v, res.m).value, c, key.p)
    case CCD(_, _, _) =>
      && Exp(key.g, r, key.p) == Exp(key.y, c, key.p)
      && Quotient(res.v, res.m).Some?
      && Exp(res.u, r, key.p) == Exp(Quotient(res.v, res.m).value, c, key.p)
  }

  ghost predicate SameProof(first: Responses, second: Responses) {
    first.masks == second.masks
    && (first.Schnorr? <==> second.Schnorr?) && (first.CCE? <==> second.CCE?)
  }

  lemma Extraction(first: Responses, second: Responses, key: Key, res: ResEncrypt)
    requires WellFormed(key) && SameProof(first, second) && (first.CCD? ==> res.u % key.p != 0)
    requires Verifies(first, key, res) == Some(true) && Verifies(second, key, res) == Some(true)
    ensures Extracted(first, second, key, res)
  {
    var (a, c, r, c', r') := (first.masks.a, first.challenge, first.response, second.challenge, second.response);
    KeyUnits(key);
    match first
    case Schnorr(_, _, _) =>
      ExtractEquation(key.g, key.y, a, c, r, c', r', key.p);
    case CCE(_, _, _) =>
      ExtractEquation(key.g, res.u, a, c, r, c', r', key.p);
      ExtractEquation(key.y, Quotient(res.v, res.m).value, first.masks.aBis.value, c, r, c', r', key.p);
    case CCD(_, _, _) =>
      ExtractEquation(key.g, key.y, a, c, r, c', r', key.p);
      PrimeUnit(res.u, key.p);
      ExtractEquation(res.u, Quotient(res.v, res.m).value, first.masks.aBis.value, c, r, c', r', key.p);
  }

  /** When the challenge difference is invertible mod p - 1, one exponent explains both sides. */
  lemma Witness(b: int, w: int, r: int, c: int, p: int)
    requires Prime(p) && b % p != 0 && w % p != 0
    requires Exp(b, r, p) == Exp(w, c, p) && Inverse(c, p - 1).Some?
    ensures Exp(b, r * Inverse(c, p - 1).value, p) == w % p
  {
    PrimeUnit(b, p);
    PrimeUnit(w, p);
    var d := Inverse(c, p - 1).value;
    ExpMul(b, r, d, p);
    ExpMul(w, c, d, p);
    var k := DifferenceIsMultiple(c * d, 1, p - 1);
    ExpReduce(w, c * d, 1, k, p);
    ExpOne(w, p);
  }

  /** The secret key follows from two Schnorr transcripts. */
  lemma SchnorrWitness(first: Responses, second: Responses, key: Key, res: ResEncrypt)
    requires WellFormed(key) && first.Schnorr? && SameProof(first, second)
    requires Verifies(first, key, res) == Some(true) && Verifies(second, key, res) == Some(true)
    requires Inverse(first.challenge - second.challenge, key.p - 1).Some?
    ensures var d := Inverse(first.challenge - second.challenge, key.p - 1).value;
            Exp(key.g, (first.response - second.response) * d, key.p) == key.y % key.p
  {
    Extraction(first, second, key, res);
    Witness(key.g, key.y, first.response - second.response, first.challenge - second.challenge, key.p);
  }

  /** The random exponent of the ciphertext follows from two CCE transcripts: it does encrypt `res.m`. */
  lemma CceWitness(first: Responses, second: Responses, key: Key, res: ResEncrypt)
    requires WellFormed(key) && key.p > 2 && first.CCE? && SameProof(first, second)
    requires Verifies(first, key, res) == Some(true) && Verifies(second, key, res) == Some(true)
    requires Inverse(first.challenge - second.challenge, key.p - 1).Some?
    ensures var d := Inverse(first.challenge - second.challenge, key.p - 1).value;
            var k := (first.response - second.response) * d;
            && Quotient(res.v, res.m).Some?
            && Exp(key.g, k, key.p) == res.u % key.p
            && Exp(key.y, k, key.p) == Quotient(res.v, res.m).value % key.p
  {
    Extraction(first, second, key, res);
    KeyUnits(key);
    var r, c := first.response - second.response, first.challenge - second.challenge;
    var w := Quotient(res.v, res.m).value;
    NonZeroChallenge(c, key.p);
    if res.u % key.p == 0 {
      ZeroChallenge(key.g, res.u, first.masks.a, first.challenge, first.response, key.p);
      ZeroChallenge(key.g, res.u, first.masks.a, second.challenge, second.response, key.p);
      assert false;
    }
    if w % key.p == 0 {
      ZeroChallenge(key.y, w, first.masks.aBis.value, first.challenge, first.response, key.p);
      ZeroChallenge(key.y, w, first.masks.aBis.value, second.challenge, second.response, key.p);
      assert false;
    }
    Witness(key.g, res.u, r, c, key.p);
    Witness(key.y, w, r, c, key.p);
  }

  lemma NonZeroChallenge(c: int, p: int)
    requires p > 2 && Inverse(c, p - 1).Some?
    ensures c != 0
  {
    DivModUnique(1, 0, 1, p - 1);
  }

  // ----- the disjunction -----

  lemma {:induction false} AllVerifyEach(and: And, responses: seq<Responses>, j: nat)
    requires AllVerify(and, responses) == Some(true) && j < |responses|
    ensures responses[j] in and.rK && Verifies(responses[j], and.rK[responses[j]], and.res) == Some(true)
  {
    if j > 0 { AllVerifyEach(and, responses[1..], j - 1); }
  }

  lemma {:induction false} AndsVerifyEach(ands: seq<And>, i: nat)
    requires AndsVerify(ands) == Some(true) && i < |ands|
    ensures AndVerifies(ands[i]) == Some(true)
  {
    if i > 0 { AndsVerifyEach(ands[1..], i - 1); }
  }

  /** Every response of the clause has a key and verifies under it. */
  ghost predicate ClauseHolds(and: And) {
    forall j :: 0 <= j < |and.responses| ==> ResponseHolds(and, and.responses[j])
  }

  ghost predicate ResponseHolds(and: And, x: Responses) {
    x in and.rK && Verifies(x, and.rK[x], and.res) == Some(true)
  }

  lemma {:induction false} AllVerifyExactly(and: And, responses: seq<Responses>)
    ensures AllVerify(and, responses) == Some(true)
            <==> forall j :: 0 <= j < |responses| ==> ResponseHolds(and, responses[j])
    decreases |responses|
  {
    if responses != [] {
      AllVerifyExactly(and, responses[1..]);
      AllFromHead(responses, x => ResponseHolds(and, x));
    }
  }

  lemma {:induction false} AndsVerifyExactly(ands: seq<And>)
    ensures AndsVerify(ands) == Some(true) <==> forall i :: 0 <= i < |ands| ==> ClauseHolds(ands[i])
    decreases |ands|
  {
    if ands != [] {
      AllVerifyExactly(ands[0], ands[0].responses);
      AndsVerifyExactly(ands[1..]);
      AllFromHead(ands, x => ClauseHolds(x));
    }
  }

  /** Whoever made it: a promise is accepted exactly if all its responses verify and its challenges add up. */
  lemma OrExactly(hash: Hash, o: Or, m: string)
    ensures OrVerifies(hash, o, m) == Some(true)
            <==> && (forall i :: 0 <= i < |o.ands| ==> ClauseHolds(o.ands[i]))
                 && XorFold(0, Challenges(o.ands)) == hash(m, o.a)
  {
    AndsVerifyExactly(o.ands);
  }

  ghost predicate SameClause(first: And, second: And) {
    && first.res == second.res && |first.responses| == |second.responses|
    && forall j :: 0 <= j < |first.responses| ==>
         var (x, y) := (first.responses[j], second.responses[j]);
         SameProof(x, y) && x in first.rK && y in second.rK && first.rK[x] == second.rK[y]
  }

  /** Two signatures that commit to the same masks under the same keys. */
  ghost predicate SameCommitments(first: Or, second: Or) {
    && first.a == second.a && |first.ands| == |second.ands|
    && forall i :: 0 <= i < |first.ands| ==> SameClause(first.ands[i], second.ands[i])
  }

  ghost predicate Reveals(first: Or, second: Or, i: nat, j: nat) {
    && i < |first.ands| && i < |second.ands|
    && j < |first.ands[i].responses| && j < |second.ands[i].responses|
    && var (x, y) := (first.ands[i].responses[j], second.ands[i].responses[j]);
       && x.challenge != y.challenge
       && x in first.ands[i].rK
       && Extracted(x, y, first.ands[i].rK[x], first.ands[i].res)
  }

  /** Some challenge differs when the folds differ. */
  lemma {:induction false} DifferentChallenge(xs: seq<And>, ys: seq<And>) returns (i: nat, j: nat)
    requires |xs| == |ys| && Challenges(xs) != Challenges(ys)
    requires forall k :: 0 <= k < |xs| ==> |xs[k].responses| == |ys[k].responses|
    ensures i < |xs| && j < |xs[i].responses|
    ensures xs[i].responses[j].challenge != ys[i].responses[j].challenge
    decreases |xs|
  {
    var cs, ds := ChallengesOf(xs[0].responses), ChallengesOf(ys[0].responses);
    if cs == ds {
      i, j := DifferentChallenge(xs[1..], ys[1..]);
      i := i + 1;
    } else {
      i := 0;
      j :| 0 <= j < |cs| && cs[j] != ds[j];
    }
  }

  /** Two accepted signatures with the same masks but different digests reveal a relation in one of the branches. */
  lemma OrExtraction(hash: Hash, first: Or, m: string, hash': Hash, second: Or, m': string)
    requires OrVerifies(hash, first, m) == Some(true) && OrVerifies(hash', second, m') == Some(true)
    requires SameCommitments(first, second) && hash(m, first.a) != hash'(m', second.a)
    requires forall i, j :: 0 <= i < |first.ands| && 0 <= j < |first.ands[i].responses| ==>
               var x := first.ands[i].responses[j];
               !x.CCD? && (x in first.ands[i].rK ==> WellFormed(first.ands[i].rK[x]))
    ensures exists i, j :: Reveals(first, second, i, j)
  {
    forall k | 0 <= k < |first.ands| ensures |first.ands[k].responses| == |second.ands[k].responses| {
      assert SameClause(first.ands[k], second.ands[k]);
    }
    var i, j := DifferentChallenge(first.ands, second.ands);
    AndsVerifyEach(first.ands, i);
    AndsVerifyEach(second.ands, i);
    var x, y := first.ands[i], second.ands[i];
    AllVerifyEach(x, x.responses, j);
    AllVerifyEach(y, y.responses, j);
    assert SameClause(x, y);
    Extraction(x.responses[j], y.responses[j], x.rK[x.responses[j]], x.res);
    assert Reveals(first, second, i, j);
  }
}
