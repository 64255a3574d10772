/** Sigma signatures: a private contract signature opened by a CCE or a CCD response. */
module SigmaSigner {
  import opened Wrappers
  import opened NumberTheory
  import opened ModPower
  import opened Bytes
  import opened Identity
  import opened Sigma
  import opened Pcs

  datatype Signature = Signature(pcs: Or, rpcs: Responses, trentK: Key)

  const NO_PROMISE := Or(0, [])
  const NO_SIGNATURE := Signature(NO_PROMISE, Schnorr(Masks(0, None), 0, 0), Key(0, 0, 0))

  /** `sign`; `opening` is the random number of the opening response. */
  function Sign(hash: Hash, me: KeyPair, t: Option<Key>, receiver: Option<Key>, m: string, coins: Coins, opening: int)
    : Option<Signature>
  {
    var receiverK :- receiver;
    var trentK :- t;
    var data :- IdentificationData(me.pub.y);
    var res :- Encryption(trentK, data, coins.k);
    var rpcs :- HonestCce(hash, m, trentK, coins.k, opening);
    var pcs :- CreatePcs(hash, me, trentK, receiverK, m, res, coins.k, coins);
    Some(Signature(pcs, rpcs, trentK))
  }

  /** The test of the signer's identification against the encrypted number. */
  function SignerMatches(res: ResEncrypt, p: int, receiver: Option<Key>): Option<bool> {
    if receiver.None? then Some(true)
    else if p <= 0 then None
    else
      var n :- IdentificationData(receiver.value.y);
      Some(res.m % p == Signed(n))
  }

  /** `verify`, with the keys the verifier has set; `None` when it throws. */
  function Verify(hash: Hash, receiver: Option<Key>, trentK: Option<Key>, m: string, sig: Signature): Option<bool> {
    if sig.pcs.ands == [] then None
    else
      var res := sig.pcs.ands[0].res;
      var known :- SignerMatches(res, sig.trentK.p, receiver);
      if !known then Some(false)
      else
        var good :- OrVerifies(hash, sig.pcs, m);
        if !good then Some(false)
        else
          var opened' :- Verifies(sig.rpcs, sig.trentK, res);
          Some(opened' && (trentK.None? || trentK.value.y == sig.trentK.y))
  }

  /** The signer object: its keys, and `sign` through a sender and a builder. */
  class Signer {
    const hash: Hash
    const key: KeyPair
    var trentK: Option<Key>
    var receiverK: Option<Key>

    constructor (hash: Hash, key: KeyPair)
      ensures this.hash == hash && this.key == key && trentK == None && receiverK == None
    {
      this.hash, this.key, this.trentK, this.receiverK := hash, key, None, None;
    }

    method MakeSignature(m: string, coins: Coins, opening: int) returns (sig: Option<Signature>)
      ensures sig == Sign(hash, key, trentK, receiverK, m, coins, opening)
    {
      if receiverK.None? || trentK.None? { return None; }
      var sender := new Sender(hash, key);
      var data := IdentificationData(key.pub.y);
      if data.None? { return None; }
      var ok := sender.Encrypt(data.value, trentK.value, coins.k);
      if !ok { return None; }
      var rpcs := sender.SendResponseCCE(m, trentK.value, opening);
      if rpcs.None? { return None; }
      var builder := new PcsBuilder(sender, trentK.value);
      var pcs := builder.GetPcs(m, receiverK.value, false, coins);
      if pcs.None? { return None; }
      return Some(Signature(pcs.value, rpcs.value, trentK.value));
    }

    method CheckSignature(m: string, sig: Signature) returns (ok: Option<bool>)
      ensures ok == Verify(hash, receiverK, trentK, m, sig)
    {
      if sig.pcs.ands == [] { return None; }
      var res := sig.pcs.ands[0].res;
      var known := SignerMatches(res, sig.trentK.p, receiverK);
      if known != Some(true) { return known; }
      var good := CheckOr(hash, sig.pcs, m);
      if good != Some(true) { return good; }
      var openedWell := Verifies(sig.rpcs, sig.trentK, res);
      if openedWell.None? { return None; }
      return Some(openedWell.value && (trentK.None? || trentK.value.y == sig.trentK.y));
    }
  }

  // ----- what an accepted signature is -----

  /** The opening response verifies on the first clause's ciphertext, under the key the signature names as Trent's. */
  ghost predicate Opened(sig: Signature) {
    sig.pcs.ands != [] && Verifies(sig.rpcs, sig.trentK, sig.pcs.ands[0].res) == Some(true)
  }

  /** The number inside is the identification of the expected signer, if one is expected. */
  ghost predicate NamesSigner(sig: Signature, receiver: Option<Key>) {
    receiver.Some? ==>
      && sig.pcs.ands != [] && sig.trentK.p > 0 && IdentificationData(receiver.value.y).Some?
      && sig.pcs.ands[0].res.m % sig.trentK.p == Signed(IdentificationData(receiver.value.y).value)
  }

  /**
   * Whoever made it: a signature is accepted exactly if it is opened, its promise verifies on the message, it names the
   * expected signer, and its Trent has the expected public number.
   */
  lemma VerifyExactly(hash: Hash, receiver: Option<Key>, trentK: Option<Key>, m: string, sig: Signature)
    ensures Verify(hash, receiver, trentK, m, sig) == Some(true)
            <==> && Opened(sig) && OrVerifies(hash, sig.pcs, m) == Some(true) && NamesSigner(sig, receiver)
                 && (trentK.None? || trentK.value.y == sig.trentK.y)
  {
  }

  /** A key too short for an identification makes the test throw, whatever the signature. */
  lemma ShortKeyThrows(hash: Hash, receiver: Key, trentK: Option<Key>, m: string, sig: Signature)
    requires IdentificationData(receiver.y).None?
    ensures Verify(hash, Some(receiver), trentK, m, sig).None?
  {
  }

  /**
   * A promise does not open itself: when two signatures around the same ciphertext are accepted, whatever for, and
   * their openings answer different challenges for the same masks, they reveal the opener's secret relation.
   */
  lemma OpeningExtracted(hash: Hash, receiver: Option<Key>, trentK: Option<Key>, m: string, sig: Signature,
                         receiver': Option<Key>, trentK': Option<Key>, m': string, sig': Signature)
    requires Verify(hash, receiver, trentK, m, sig) == Some(true)
    requires Verify(hash, receiver', trentK', m', sig') == Some(true)
    requires sig.pcs.ands != [] && sig'.pcs.ands != [] && sig.pcs.ands[0].res == sig'.pcs.ands[0].res
    requires WellFormed(sig.trentK) && sig.trentK == sig'.trentK && SameProof(sig.rpcs, sig'.rpcs)
    requires sig.rpcs.CCD? ==> sig.pcs.ands[0].res.u % sig.trentK.p != 0
    ensures Extracted(sig.rpcs, sig'.rpcs, sig.trentK, sig.pcs.ands[0].res)
  {
    VerifyExactly(hash, receiver, trentK, m, sig);
    VerifyExactly(hash, receiver', trentK', m', sig');
    Extraction(sig.rpcs, sig'.rpcs, sig.trentK, sig.pcs.ands[0].res);
  }

  /** Who `verify` takes a signature around the identification of `y` for. */
  function ExpectedVerdict(y: int, t: Key, receiver: Option<Key>, trentK: Option<Key>): Option<bool> {
    if receiver.None? then Some(trentK.None? || trentK.value.y == t.y)
    else
      var n :- IdentificationData(receiver.value.y);
      Some(IdentificationData(y) == Some(n) && (trentK.None? || trentK.value.y == t.y))
  }

  /** A signature whose parts were made around the signer's identification gets exactly the expected verdict. */
  lemma GenuineVerdict(hash: Hash, y: int, t: Key, receiver: Option<Key>, trentK: Option<Key>, m: string,
                       sig: Signature)
    requires t.p > 0 && IdentificationData(y).Some? && Signed(IdentificationData(y).value) < t.p
    requires sig.trentK == t && sig.pcs.ands != []
    requires sig.pcs.ands[0].res.m == Signed(IdentificationData(y).value)
    requires OrVerifies(hash, sig.pcs, m) == Some(true)
    requires Verifies(sig.rpcs, t, sig.pcs.ands[0].res) == Some(true)
    ensures Verify(hash, receiver, trentK, m, sig) == ExpectedVerdict(y, t, receiver, trentK)
  {
    IdentificationPositive(y);
    DivModUnique(sig.pcs.ands[0].res.m, 0, sig.pcs.ands[0].res.m, t.p);
    if receiver.Some? {
      var other := IdentificationData(receiver.value.y);
      if other.Some? {
        IdentificationPositive(receiver.value.y);
        if Unsigned(other.value) == Unsigned(IdentificationData(y).value) {
          UnsignedInjective(other.value, IdentificationData(y).value);
        }
      }
    }
  }

  /** A signature around the identification of `y` is never taken for one of somebody with another identification. */
  lemma OtherSignerRefused(hash: Hash, y: int, receiver: Key, trentK: Option<Key>, m: string, sig: Signature)
    requires sig.trentK.p > 0 && IdentificationData(y).Some? && Signed(IdentificationData(y).value) < sig.trentK.p
    requires sig.pcs.ands != [] && sig.pcs.ands[0].res.m == Signed(IdentificationData(y).value)
    requires IdentificationData(receiver.y).Some? && IdentificationData(receiver.y) != IdentificationData(y)
    ensures Verify(hash, Some(receiver), trentK, m, sig) == Some(false)
  {
    var data, other := IdentificationData(y).value, IdentificationData(receiver.y).value;
    IdentificationPositive(y);
    IdentificationPositive(receiver.y);
    DivModUnique(sig.pcs.ands[0].res.m, 0, sig.pcs.ands[0].res.m, sig.trentK.p);
    if Unsigned(other) == Unsigned(data) { UnsignedInjective(other, data); }
  }

  /**
   * `sign` returns exactly when the identification exists and fits below Trent's modulus, and `verify` then accepts
   * exactly for a verifier who expects the signer's identification and the same Trent.
   */
  lemma SignThenVerify(hash: Hash, me: KeyPair, t: Key, to: Key, m: string, coins: Coins, opening: int,
                       receiver: Option<Key>, trentK: Option<Key>)
    requires WellFormedPair(me) && WellFormed(t) && WellFormed(to)
    ensures var sig := Sign(hash, me, Some(t), Some(to), m, coins, opening);
            var data := IdentificationData(me.pub.y);
            && (sig.Some? <==> data.Some? && Signed(data.value) < t.p)
            && (sig.Some? ==>
                  Verify(hash, receiver, trentK, m, sig.value) == ExpectedVerdict(me.pub.y, t, receiver, trentK))
  {
    var data := IdentificationData(me.pub.y);
    if data.Some? {
      EncryptionGenuine(t, me.pub.y, coins.k);
      var res := Encryption(t, data.value, coins.k);
      if res.Some? {
        HonestCceComplete(hash, m, t, coins.k, opening, res.value);
        PcsComplete(hash, me, t, to, m, res.value, coins.k, coins);
        GenuineVerdict(hash, me.pub.y, t, receiver, trentK, m,
                       Sign(hash, me, Some(t), Some(to), m, coins, opening).value);
      }
    }
  }

  /**
   * A signature is a promise to the receiver and an opening around one ciphertext of the signer's identification; the
   * opening answers the digest of the message and its mask with the exponent of that ciphertext.
   */
  lemma SignTranscript(hash: Hash, me: KeyPair, t: Key, to: Key, m: string, coins: Coins, opening: int)
    requires WellFormedPair(me) && WellFormed(t) && WellFormed(to)
    requires Sign(hash, me, Some(t), Some(to), m, coins, opening).Some?
    ensures var sig := Sign(hash, me, Some(t), Some(to), m, coins, opening).value;
            && IdentificationData(me.pub.y).Some?
            && var res := ResEncrypt(Exp(t.g, coins.k, t.p),
                                     Exp(t.y, coins.k, t.p) * Signed(IdentificationData(me.pub.y).value),
                                     Signed(IdentificationData(me.pub.y).value));
               && CreatePcs(hash, me, t, to, m, res, coins.k, coins) == Some(sig.pcs)
               && sig.rpcs.CCE? && sig.rpcs.masks == Masks(Exp(t.g, opening, t.p), Some(Exp(t.y, opening, t.p)))
               && sig.rpcs.challenge == hash(m, sig.rpcs.masks.a)
               && sig.rpcs.response == coins.k * sig.rpcs.challenge + opening
               && sig.trentK == t
  {
    KeyUnits(t);
    EncryptionGenuine(t, me.pub.y, coins.k);
  }

  /** In particular the signer's own key and Trent's key are accepted. */
  lemma SignerAccepted(hash: Hash, me: KeyPair, t: Key, to: Key, m: string, coins: Coins, opening: int)
    requires WellFormedPair(me) && WellFormed(t) && WellFormed(to)
    requires Sign(hash, me, Some(t), Some(to), m, coins, opening).Some?
    ensures Verify(hash, Some(me.pub), Some(t), m, Sign(hash, me, Some(t), Some(to), m, coins, opening).value)
            == Some(true)
  {
    SignThenVerify(hash, me, t, to, m, coins, opening, Some(me.pub), Some(t));
  }
}
