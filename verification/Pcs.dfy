/** Private contract signatures: the honest prover, the simulator, and the two combined. */
module Pcs {
  import opened Wrappers
  import opened NumberTheory
  import opened ModPower
  import opened SignedXor
  import opened Bytes
  import opened Identity
  import opened Sigma
  import Engine = ElGamalEngine

  /** `ElGamal.encryptForContract` and `Sender.Encryption`, with the exponent k that the engine drew. */
  function Encryption(t: Key, data: seq<Byte>, k: int): Option<ResEncrypt> {
    if t.p <= 0 || !Engine.Accepts(t.p, data) || data == [] then None
    else
      var u :- ModPow(t.g, k, t.p);
      var yPowK :- ModPow(t.y, k, t.p);
      Some(ResEncrypt(u, yPowK * Signed(data), Signed(data)))
  }

  /** A Schnorr transcript for a key whose secret is not known, from a chosen challenge and response. */
  function FabricSchnorr(key: Key, c: int, r: int): Option<Responses> {
    var gPowR :- ModPow(key.g, r, key.p);
    var yPowC :- ModPow(key.y, c, key.p);
    var inverse :- Inverse(yPowC, key.p);
    Some(Schnorr(Masks(gPowR * inverse, None), c, r))
  }

  /** A CCE transcript that does not use the random exponent of the ciphertext. */
  function FabricCce(res: ResEncrypt, key: Key, c: int, r: int): Option<Responses> {
    var gPowR :- ModPow(key.g, r, key.p);
    var uPowC :- ModPow(res.u, c, key.p);
    var uInverse :- Inverse(uPowC, key.p);
    var yPowR :- ModPow(key.y, r, key.p);
    var w :- Quotient(res.v, res.m);
    var wPowC :- ModPow(w, c, key.p);
    var wInverse :- Inverse(wPowC, key.p);
    Some(CCE(Masks(gPowR * uInverse, Some(yPowR * wInverse)), c, r))
  }

  function CceMasks(t: Key, s: int): Option<Masks> {
    var a :- ModPow(t.g, s, t.p);
    var aBis :- ModPow(t.y, s, t.p);
    Some(Masks(a, Some(aBis)))
  }

  function HonestCce(hash: Hash, m: string, t: Key, k: int, s: int): Option<Responses> {
    var masks :- CceMasks(t, s);
    var c := hash(m, masks.a);
    Some(CCE(masks, c, k * c + s))
  }

  /** Every random number one private contract signature draws. */
  datatype Coins = Coins(k: int, cce: int, schnorr: int, c2: int, r2: int, c3: int, r3: int)

  const NO_COINS := Coins(0, 0, 0, 0, 0, 0, 0)

  /** The last challenge closes the exclusive or; the Schnorr response answers it. */
  function ClosingSchnorr(me: KeyPair, a: int, s: int, challenge: int): Responses {
    Schnorr(Masks(a, None), challenge, me.x * challenge + s)
  }

  /** The signature of `me` for `receiver` on m, around the ciphertext `res` of exponent k. */
  function CreatePcs(hash: Hash, me: KeyPair, t: Key, receiver: Key, m: string, res: ResEncrypt, k: int, coins: Coins)
    : Option<Or>
  {
    var schnorr2 :- FabricSchnorr(receiver, coins.c2, coins.r2);
    var cce2 :- FabricCce(res, t, coins.c3, coins.r3);
    var cce1 :- HonestCce(hash, m, t, k, coins.cce);
    var a :- ModPow(me.pub.g, coins.schnorr, me.pub.p);
    var challenge := Xor(hash(m, a), Xor(schnorr2.challenge, Xor(cce1.challenge, cce2.challenge)));
    var schnorr1 := ClosingSchnorr(me, a, coins.schnorr, challenge);
    Some(Or(a, [And(map[schnorr1 := me.pub, cce1 := t], res, [schnorr1, cce1]),
                And(map[schnorr2 := receiver, cce2 := t], res, [schnorr2, cce2])]))
  }

  /** `getPcs` with a fresh encryption of the signer's identification. */
  function FreshPcs(hash: Hash, me: KeyPair, t: Key, receiver: Key, m: string, coins: Coins): Option<Or> {
    var data :- IdentificationData(me.pub.y);
    var res :- Encryption(t, data, coins.k);
    CreatePcs(hash, me, t, receiver, m, res, coins.k, coins)
  }

  // ----- the prover's objects -----

  /** `Sender`: remembers the exponent behind every mask, and the last ciphertext. */
  class Sender {
    const hash: Hash
    const keys: KeyPair
    var eph: map<Masks, int>
    var k: int
    var resEncrypt: Option<ResEncrypt>

    constructor (hash: Hash, keys: KeyPair)
      ensures this.hash == hash && this.keys == keys && eph == map[] && resEncrypt == None
    {
      this.hash, this.keys, this.eph, this.k, this.resEncrypt := hash, keys, map[], 0, None;
    }

    method Encrypt(data: seq<Byte>, t: Key, draw: int) returns (ok: bool)
      modifies `k, `resEncrypt
      ensures ok == Encryption(t, data, draw).Some?
      ensures ok ==> k == draw && resEncrypt == Encryption(t, data, draw)
      ensures !ok ==> k == old(k) && resEncrypt == old(resEncrypt)
    {
      var res := Encryption(t, data, draw);
      ok := res.Some?;
      if ok { k, resEncrypt := draw, res; }
    }

    method SendMasksSchnorr(s: int) returns (masks: Option<Masks>)
      modifies `eph
      ensures masks.Some? <==> ModPow(keys.pub.g, s, keys.pub.p).Some?
      ensures masks.Some? ==> masks.value == Masks(ModPow(keys.pub.g, s, keys.pub.p).value, None)
      ensures eph == if masks.Some? then old(eph)[masks.value := s] else old(eph)
    {
      var a := ModPow(keys.pub.g, s, keys.pub.p);
      if a.None? { return None; }
      masks := Some(Masks(a.value, None));
      eph := eph[masks.value := s];
    }

    method SendResponseSchnorr(masks: Masks, challenge: int) returns (response: Option<Responses>)
      ensures response ==
              if masks in eph then Some(Schnorr(masks, challenge, keys.x * challenge + eph[masks])) else None
    {
      if masks !in eph { return None; }
      response := Some(Schnorr(masks, challenge, keys.x * challenge + eph[masks]));
    }

    method SendResponseCCE(m: string, t: Key, s: int) returns (response: Option<Responses>)
      modifies `eph
      ensures response == HonestCce(hash, m, t, k, s)
      ensures eph == if response.Some? then old(eph)[response.value.masks := s] else old(eph)
    {
      var masks := CceMasks(t, s);
      if masks.None? { return None; }
      eph := eph[masks.value := s];
      var c := hash(m, masks.value.a);
      response := Some(CCE(masks.value, c, k * c + eph[masks.value]));
    }
  }

  /** `PCS`: builds signatures with a sender and keeps the last one. */
  class PcsBuilder {
    const trentK: Key
    const sender: Sender
    var res: Option<ResEncrypt>
    var pcs: Option<Or>

    constructor (sender: Sender, trentK: Key)
      ensures this.sender == sender && this.trentK == trentK && res == sender.resEncrypt && pcs == None
    {
      this.sender, this.trentK, this.res, this.pcs := sender, trentK, sender.resEncrypt, None;
    }

    method GetPcs(m: string, receiver: Key, changeEncrypter: bool, coins: Coins) returns (result: Option<Or>)
      modifies this, sender
      ensures changeEncrypter ==> result == FreshPcs(sender.hash, sender.keys, trentK, receiver, m, coins)
      ensures !changeEncrypter ==>
        result == if old(res).None? then None
                  else CreatePcs(sender.hash, sender.keys, trentK, receiver, m, old(res).value, old(sender.k), coins)
      ensures result.Some? ==> pcs == result && res.Some?
    {
      if changeEncrypter {
        var data := IdentificationData(sender.keys.pub.y);
        if data.None? { return None; }
        var ok := sender.Encrypt(data.value, trentK, coins.k);
        if !ok { return None; }
        res := sender.resEncrypt;
      }
      if res.None? { return None; }
      result := Create(m, receiver, coins);
    }

    method Create(m: string, receiver: Key, coins: Coins) returns (result: Option<Or>)
      requires res.Some?
      modifies `pcs, sender`eph
      ensures result == CreatePcs(sender.hash, sender.keys, trentK, receiver, m, res.value, sender.k, coins)
      ensures pcs == if result.Some? then result else old(pcs)
    {
      var schnorr2 := FabricSchnorr(receiver, coins.c2, coins.r2);
      if schnorr2.None? { return None; }
      var cce2 := FabricCce(res.value, trentK, coins.c3, coins.r3);
      if cce2.None? { return None; }
      var cce1 := sender.SendResponseCCE(m, trentK, coins.cce);
      if cce1.None? { return None; }
      var mask := sender.SendMasksSchnorr(coins.schnorr);
      if mask.None? { return None; }
      var c := sender.hash(m, mask.value.a);
      var challenge := Xor(c, Xor(schnorr2.value.challenge, Xor(cce1.value.challenge, cce2.value.challenge)));
      var schnorr1 := sender.SendResponseSchnorr(mask.value, challenge);
      var first := And(map[schnorr1.value := sender.keys.pub, cce1.value := trentK], res.value,
                       [schnorr1.value, cce1.value]);
      var second := And(map[schnorr2.value := receiver, cce2.value := trentK], res.value,
                        [schnorr2.value, cce2.value]);
      result := Some(Or(mask.value.a, [first, second]));
      pcs := result;
    }
  }

  // ----- what is built is accepted -----

  lemma FabricSchnorrComplete(key: Key, c: int, r: int, res: ResEncrypt)
    requires WellFormed(key)
    ensures var response := FabricSchnorr(key, c, r);
            response.Some? && Verifies(response.value, key, res) == Some(true)
  {
    KeyUnits(key);
    SimulationEquation(key.g, key.y, c, r, key.p);
  }

  lemma FabricCceComplete(t: Key, k: int, res: ResEncrypt, c: int, r: int)
    requires WellFormed(t) && Encrypts(t, k, res)
    ensures var response := FabricCce(res, t, c, r);
            response.Some? && Verifies(response.value, t, res) == Some(true)
  {
    KeyUnits(t);
    EncryptionUnits(t, k, res);
    SimulationEquation(t.g, res.u, c, r, t.p);
    SimulationEquation(t.y, Exp(t.y, k, t.p), c, r, t.p);
  }

  /** x = z f gives x z^-1 = f. */
  lemma UnmaskedAlgebra(z: int, f: int, x: int, i: int, p: int)
    requires p > 0 && x == (z * f) % p && (z * i) % p == 1 % p
    ensures (x * i) % p == f % p
  {
    MulMod(z * f, i, p);
    assert (z * f) * i == (z * i) * f;
    MulCong(z * i, 1, f, p);
  }

  /**
   * The simulation is perfect: what it makes of a challenge and the response that an honest prover with mask exponent s
   * gives to it, has the very mask of that prover.
   */
  lemma FabricSchnorrHonest(key: KeyPair, c: int, s: int)
    requires WellFormedPair(key)
    ensures var response := FabricSchnorr(key.pub, c, key.x * c + s);
            && response.Some? && response.value.Schnorr?
            && response.value.challenge == c && response.value.response == key.x * c + s
            && response.value.masks.a % key.pub.p == Exp(key.pub.g, s, key.pub.p) && response.value.masks.aBis == None
  {
    KeyUnits(key.pub);
    MaskRecovered(key.pub.g, key.x, c, s, key.pub.p);
  }

  lemma FabricCceHonest(t: Key, k: int, res: ResEncrypt, c: int, s: int)
    requires WellFormed(t) && Encrypts(t, k, res)
    ensures var response := FabricCce(res, t, c, k * c + s);
            && response.Some? && response.value.CCE?
            && response.value.challenge == c && response.value.response == k * c + s
            && response.value.masks.a % t.p == Exp(t.g, s, t.p) && response.value.masks.aBis.Some?
            && response.value.masks.aBis.value % t.p == Exp(t.y, s, t.p)
  {
    KeyUnits(t);
    EncryptionUnits(t, k, res);
    MaskRecovered(t.g, k, c, s, t.p);
    MaskRecovered(t.y, k, c, s, t.p);
  }

  lemma MaskRecovered(b: int, x: int, c: int, s: int, p: int)
    requires Prime(p) && Unit(b, p)
    ensures var w := Exp(Exp(b, x, p), c, p);
            Inverse(w, p).Some? && (Exp(b, x * c + s, p) * Inverse(w, p).value) % p == Exp(b, s, p)
  {
    ResponseEquation(b, x, c, s, p);
    ExpUnit(b, x, p);
    ExpUnit(Exp(b, x, p), c, p);
    ExpRange(b, s, p);
    DivModUnique(Exp(b, s, p), 0, Exp(b, s, p), p);
    var w := Exp(Exp(b, x, p), c, p);
    UnmaskedAlgebra(w, Exp(b, s, p), Exp(b, x * c + s, p), Inverse(w, p).value, p);
  }

  lemma HonestCceComplete(hash: Hash, m: string, t: Key, k: int, s: int, res: ResEncrypt)
    requires WellFormed(t) && Encrypts(t, k, res)
    ensures var response := HonestCce(hash, m, t, k, s);
            response.Some? && Verifies(response.value, t, res) == Some(true)
  {
    KeyUnits(t);
    CceComplete(t, k, res, s, hash(m, Exp(t.g, s, t.p)));
  }

  /** Two responses that verify make a conjunction that verifies. */
  lemma PairVerifies(x: Responses, xKey: Key, y: Responses, yKey: Key, res: ResEncrypt)
    requires x.Schnorr? && y.CCE?
    requires Verifies(x, xKey, res) == Some(true) && Verifies(y, yKey, res) == Some(true)
    ensures AndVerifies(And(map[x := xKey, y := yKey], res, [x, y])) == Some(true)
  {
    var and := And(map[x := xKey, y := yKey], res, [x, y]);
    assert [x, y][1..] == [y] && [y][1..] == [];
    assert AllVerify(and, []) == Some(true);
    assert AllVerify(and, [y]) == Some(true);
  }

  /** A disjunction of two such pairs whose first challenge closes the fold is accepted. */
  lemma ClosedOrVerifies(hash: Hash, m: string, a: int, first: And, second: And)
    requires AndVerifies(first) == Some(true) && AndVerifies(second) == Some(true)
    requires |first.responses| == 2 && |second.responses| == 2
    requires var (c1, c2, c3, c4) := (first.responses[0].challenge, first.responses[1].challenge,
                                      second.responses[0].challenge, second.responses[1].challenge);
             c1 == Xor(hash(m, a), Xor(c3, Xor(c2, c4)))
    ensures OrVerifies(hash, Or(a, [first, second]), m) == Some(true)
  {
    var ands := [first, second];
    assert ands[1..] == [second] && [second][1..] == [];
    assert AndsVerify([]) == Some(true);
    assert AndsVerify([second]) == Some(true);
    var (c1, c2, c3, c4) := (first.responses[0].challenge, first.responses[1].challenge,
                             second.responses[0].challenge, second.responses[1].challenge);
    assert Challenges([]) == [];
    assert Challenges([second]) == [c3, c4];
    assert Challenges(ands) == [c1, c2, c3, c4];
    XorFoldCloses(hash(m, a), c2, c3, c4);
  }

  /** The honest clause verifies whatever the challenge that closes the fold. */
  lemma HonestClauseVerifies(hash: Hash, me: KeyPair, t: Key, m: string, res: ResEncrypt, k: int, coins: Coins,
                             challenge: int)
    requires WellFormedPair(me) && WellFormed(t) && Encrypts(t, k, res)
    ensures var cce1 := HonestCce(hash, m, t, k, coins.cce);
            var a := ModPow(me.pub.g, coins.schnorr, me.pub.p);
            && cce1.Some? && a.Some?
            && var schnorr1 := ClosingSchnorr(me, a.value, coins.schnorr, challenge);
               AndVerifies(And(map[schnorr1 := me.pub, cce1.value := t], res, [schnorr1, cce1.value])) == Some(true)
  {
    KeyUnits(me.pub);
    HonestCceComplete(hash, m, t, k, coins.cce, res);
    SchnorrComplete(me, coins.schnorr, challenge, res);
    var a := Exp(me.pub.g, coins.schnorr, me.pub.p);
    PairVerifies(ClosingSchnorr(me, a, coins.schnorr, challenge), me.pub,
                 HonestCce(hash, m, t, k, coins.cce).value, t, res);
  }

  lemma SimulatedClauseVerifies(t: Key, receiver: Key, res: ResEncrypt, k: int, coins: Coins)
    requires WellFormed(t) && WellFormed(receiver) && Encrypts(t, k, res)
    ensures var schnorr2 := FabricSchnorr(receiver, coins.c2, coins.r2);
            var cce2 := FabricCce(res, t, coins.c3, coins.r3);
            && schnorr2.Some? && cce2.Some?
            && AndVerifies(And(map[schnorr2.value := receiver, cce2.value := t], res, [schnorr2.value, cce2.value]))
               == Some(true)
  {
    FabricSchnorrComplete(receiver, coins.c2, coins.r2, res);
    FabricCceComplete(t, k, res, coins.c3, coins.r3);
    PairVerifies(FabricSchnorr(receiver, coins.c2, coins.r2).value, receiver,
                 FabricCce(res, t, coins.c3, coins.r3).value, t, res);
  }

  /** Every signature that `createPcs` builds around a genuine ciphertext exists and is accepted. */
  lemma PcsComplete(hash: Hash, me: KeyPair, t: Key, receiver: Key, m: string, res: ResEncrypt, k: int, coins: Coins)
    requires WellFormedPair(me) && WellFormed(t) && WellFormed(receiver) && Encrypts(t, k, res)
    ensures var pcs := CreatePcs(hash, me, t, receiver, m, res, k, coins);
            && pcs.Some? && OrVerifies(hash, pcs.value, m) == Some(true)
            && |pcs.value.ands| == 2
            && forall i :: 0 <= i < 2 ==> pcs.value.ands[i].res == res
  {
    SimulatedClauseVerifies(t, receiver, res, k, coins);
    HonestClauseVerifies(hash, me, t, m, res, k, coins, 0);
    var schnorr2 := FabricSchnorr(receiver, coins.c2, coins.r2).value;
    var cce2 := FabricCce(res, t, coins.c3, coins.r3).value;
    var cce1 := HonestCce(hash, m, t, k, coins.cce).value;
    var a := ModPow(me.pub.g, coins.schnorr, me.pub.p).value;
    var challenge := Xor(hash(m, a), Xor(schnorr2.challenge, Xor(cce1.challenge, cce2.challenge)));
    HonestClauseVerifies(hash, me, t, m, res, k, coins, challenge);
    var pcs := CreatePcs(hash, me, t, receiver, m, res, k, coins).value;
    ClosedOrVerifies(hash, m, a, pcs.ands[0], pcs.ands[1]);
  }

  /** A clause of a Schnorr response under one key and a CCE response under Trent's. */
  ghost predicate PairOf(clause: And, key: Key, t: Key, res: ResEncrypt) {
    && clause.res == res && |clause.responses| == 2
    && clause.responses[0].Schnorr? && clause.responses[1].CCE?
    && clause.rK == map[clause.responses[0] := key, clause.responses[1] := t]
  }

  /**
   * Where the random numbers go: the second clause is simulated from two drawn challenges with their drawn responses;
   * in the first one the signer answers the digest of its CCE mask, and the challenge left over, with its secrets and
   * two drawn mask exponents.
   */
  lemma PcsTranscript(hash: Hash, me: KeyPair, t: Key, receiver: Key, m: string, res: ResEncrypt, k: int, coins: Coins)
    requires WellFormedPair(me) && WellFormed(t) && WellFormed(receiver) && Encrypts(t, k, res)
    ensures var pcs := CreatePcs(hash, me, t, receiver, m, res, k, coins);
            && pcs.Some? && |pcs.value.ands| == 2
            && PairOf(pcs.value.ands[0], me.pub, t, res) && PairOf(pcs.value.ands[1], receiver, t, res)
            && var (first, second) := (pcs.value.ands[0].responses, pcs.value.ands[1].responses);
               && second[0].challenge == coins.c2 && second[0].response == coins.r2
               && second[1].challenge == coins.c3 && second[1].response == coins.r3
               && first[1].masks.a == Exp(t.g, coins.cce, t.p) && first[1].challenge == hash(m, first[1].masks.a)
               && first[1].response == k * first[1].challenge + coins.cce
               && pcs.value.a == first[0].masks.a == Exp(me.pub.g, coins.schnorr, me.pub.p)
               && first[0].response == me.x * first[0].challenge + coins.schnorr
  {
    KeyUnits(me.pub);
    KeyUnits(t);
    PcsComplete(hash, me, t, receiver, m, res, k, coins);
  }

  /** The engine lets an identification through exactly when its number is below p, and then it is encrypted. */
  lemma EncryptionGenuine(t: Key, y: int, k: int)
    requires WellFormed(t) && IdentificationData(y).Some?
    ensures var data := IdentificationData(y).value;
            var res := Encryption(t, data, k);
            && (res.Some? <==> Signed(data) < t.p)
            && (res.Some? ==> Encrypts(t, k, res.value) && res.value.m == Signed(data) && 0 < res.value.m < t.p)
  {
    KeyUnits(t);
    IdentificationPositive(y);
    var data := IdentificationData(y).value;
    if Unsigned(data) < t.p { EnoughRoom(t.p, data); }
  }

  /** A byte string whose number is below p is not too long for the engine when its first byte is at least 2. */
  lemma EnoughRoom(p: nat, data: seq<Byte>)
    requires data != [] && data[0] >= 2 && Unsigned(data) < p
    ensures |data| <= (Engine.BitLength(p) + 6) / 8
  {
    var n := |data| - 1;
    UnsignedHead(data);
    PowPositive(256, n);
    AtLeastTwice(data[0], Pow(256, n));
    Engine.ByteIsEightBits(n);
    DoublePow(8 * n);
    LongerThan(p, 8 * n + 1);
  }

  lemma AtLeastTwice(d: int, q: int)
    requires d >= 2 && q > 0
    ensures d * q >= 2 * q
  {
    MulAtLeast(d - 1, q);
    assert d * q == (d - 1) * q + q;
  }

  lemma DoublePow(e: nat)
    ensures Pow(2, e + 1) == 2 * Pow(2, e)
  {
  }

  lemma LongerThan(p: nat, bits: nat)
    requires p >= Pow(2, bits)
    ensures Engine.BitLength(p) > bits
  {
    Engine.BitLengthBound(p);
    if Engine.BitLength(p) <= bits {
      Engine.PowMonotone(2, Engine.BitLength(p), bits);
      assert false;
    }
  }

  /** The same for `getPcs`: it returns exactly when the identification fits below Trent's modulus. */
  lemma FreshPcsComplete(hash: Hash, me: KeyPair, t: Key, receiver: Key, m: string, coins: Coins)
    requires WellFormedPair(me) && WellFormed(t) && WellFormed(receiver)
    ensures var pcs := FreshPcs(hash, me, t, receiver, m, coins);
            var data := IdentificationData(me.pub.y);
            && (pcs.Some? <==> data.Some? && Signed(data.value) < t.p)
            && (pcs.Some? ==> OrVerifies(hash, pcs.value, m) == Some(true))
  {
    var data := IdentificationData(me.pub.y);
    if data.Some? {
      EncryptionGenuine(t, me.pub.y, coins.k);
      var res := Encryption(t, data.value, coins.k);
      if res.Some? {
        PcsComplete(hash, me, t, receiver, m, res.value, coins.k, coins);
      }
    }
  }
}
