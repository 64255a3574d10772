/** The trusted third party: decryption, the gate on claims, and the signatures built from a claim. */
module Trent {
  import opened Wrappers
  import opened NumberTheory
  import opened ModPower
  import opened Bytes
  import opened Identity
  import opened Sigma
  import opened Pcs
  import opened SigmaSigner
  import Engine = ElGamalEngine

  /** `decryption(ResEncrypt)`. */
  function Decryption(t: KeyPair, res: ResEncrypt): Option<int> {
    var shared :- ModPow(res.u, t.pub.p - 1 - t.x, t.pub.p);
    Some((shared * res.v) % t.pub.p)
  }

  /** `isVerified` after the clauses of `ands`: some clause decrypts to the identification of its first key. */
  function VerifiesRes(t: KeyPair, ands: seq<And>, isVerified: bool): Option<bool>
    decreases |ands|
  {
    if ands == [] then Some(isVerified)
    else
      var a := ands[0];
      if a.responses == [] || a.responses[0] !in a.rK then None
      else
        var data :- IdentificationData(a.rK[a.responses[0]].y);
        var h :- Decryption(t, a.res);
        VerifiesRes(t, ands[1..], isVerified || h == Signed(data))
  }

  /** A row of promises as it arrives; an entry may be null. */
  type Row = seq<Option<Or>>

  /** The gate: every entry of the claim is a signature on m around the identification of a known key. */
  function ClaimAccepted(hash: Hash, t: KeyPair, m: string, claim: Row): Option<bool>
    decreases |claim|
  {
    if claim == [] then Some(true)
    else
      var o :- claim[0];
      var good :- OrVerifies(hash, o, m);
      if !good then Some(false)
      else
        var genuine :- VerifiesRes(t, o.ands, false);
        if !genuine then Some(false) else ClaimAccepted(hash, t, m, claim[1..])
  }

  /** The digest of the name of an array object and a mask, read as a signed number, by the mask. */
  type Digest = int -> int

  /** `SendResponse` with mask exponent s. */
  function CcdResponse(t: KeyPair, res: ResEncrypt, s: int, digest: Digest): Option<Responses> {
    var a :- ModPow(t.pub.g, s, t.pub.p);
    var aBis :- ModPow(res.u, s, t.pub.p);
    Some(CCD(Masks(a, Some(aBis)), digest(a), t.x * digest(a) + s))
  }

  /** The random number behind Trent's k-th response, which is not negative, and the digest for its challenge. */
  type Draws = nat -> (nat, Digest)

  /** The signature that `resolveToken` builds from entry k of a claim. */
  function TokenSignature(t: KeyPair, claim: Row, k: nat, draws: Draws): Option<Signature> {
    if k >= |claim| then None
    else
      var o :- claim[k];
      if o.ands == [] then None
      else
        var response :- CcdResponse(t, o.ands[0].res, draws(k).0, draws(k).1);
        Some(Signature(o, response, t.pub))
  }

  /** `resolveToken`: one signature for each of the n parties, or a throw. */
  function ResolveToken(t: KeyPair, claim: Row, n: nat, draws: Draws): (r: Option<seq<Signature>>)
    ensures r.Some? ==> |r.value| == n
    ensures r.Some? ==> forall k :: 0 <= k < n ==> TokenSignature(t, claim, k, draws) == Some(r.value[k])
    ensures r.None? ==> exists k: nat :: k < n && TokenSignature(t, claim, k, draws).None?
  {
    if n == 0 then Some([])
    else
      var before :- ResolveToken(t, claim, n - 1, draws);
      var last :- TokenSignature(t, claim, n - 1, draws);
      Some(before + [last])
  }

  class TrentServer {
    const hash: Hash
    const keys: KeyPair
    var eph: map<Masks, int>

    constructor (hash: Hash, keys: KeyPair)
      ensures this.hash == hash && this.keys == keys && eph == map[]
    {
      this.hash, this.keys, this.eph := hash, keys, map[];
    }

    method SendMasks(res: ResEncrypt, s: int) returns (masks: Option<Masks>)
      modifies `eph
      ensures masks.Some? <==> ModPow(keys.pub.g, s, keys.pub.p).Some? && ModPow(res.u, s, keys.pub.p).Some?
      ensures masks.Some? ==> masks.value == Masks(ModPow(keys.pub.g, s, keys.pub.p).value,
                                                   Some(ModPow(res.u, s, keys.pub.p).value))
      ensures eph == if masks.Some? then old(eph)[masks.value := s] else old(eph)
    {
      var a := ModPow(keys.pub.g, s, keys.pub.p);
      var aBis := ModPow(res.u, s, keys.pub.p);
      if a.None? || aBis.None? { return None; }
      masks := Some(Masks(a.value, Some(aBis.value)));
      eph := eph[masks.value := s];
    }

    /** `SendChallenge` hashes the mask, with the name of the message array instead of its content. */
    method SendResponse(res: ResEncrypt, s: int, digest: Digest) returns (response: Option<Responses>)
      modifies `eph
      ensures response == CcdResponse(keys, res, s, digest)
    {
      var masks := SendMasks(res, s);
      if masks.None? { return None; }
      var challenge := digest(masks.value.a);
      response := Some(CCD(masks.value, challenge, keys.x * challenge + eph[masks.value]));
    }

    method BuildToken(claim: Row, n: nat, draws: Draws) returns (token: Option<seq<Signature>>)
      modifies `eph
      ensures token == ResolveToken(keys, claim, n, draws)
    {
      var signatures := [];
      for k := 0 to n
        invariant ResolveToken(keys, claim, k, draws) == Some(signatures)
      {
        if k >= |claim| || claim[k].None? || claim[k].value.ands == [] {
          ResolveFails(keys, claim, n, draws, k);
          return None;
        }
        var o := claim[k].value;
        var response := SendResponse(o.ands[0].res, draws(k).0, draws(k).1);
        if response.None? {
          ResolveFails(keys, claim, n, draws, k);
          return None;
        }
        signatures := signatures + [Signature(o, response.value, keys.pub)];
      }
      return Some(signatures);
    }

    method CheckIdentification(o: Or) returns (ok: Option<bool>)
      ensures ok == VerifiesRes(keys, o.ands, false)
    {
      var isVerified := false;
      for i := 0 to |o.ands|
        invariant VerifiesRes(keys, o.ands[i..], isVerified) == VerifiesRes(keys, o.ands, false)
      {
        var a := o.ands[i];
        assert o.ands[i..][0] == a && o.ands[i..][1..] == o.ands[i + 1..];
        if a.responses == [] || a.responses[0] !in a.rK { return None; }
        var data := IdentificationData(a.rK[a.responses[0]].y);
        if data.None? { return None; }
        var h := Decryption(keys, a.res);
        if h.None? { return None; }
        isVerified := isVerified || h.value == Signed(data.value);
      }
      return Some(isVerified);
    }

    method CheckClaim(m: string, claim: Row) returns (verifiedOr: Option<bool>)
      ensures verifiedOr == ClaimAccepted(hash, keys, m, claim)
    {
      for i := 0 to |claim|
        invariant ClaimAccepted(hash, keys, m, claim[i..]) == ClaimAccepted(hash, keys, m, claim)
      {
        assert claim[i..][0] == claim[i] && claim[i..][1..] == claim[i + 1..];
        if claim[i].None? { return None; }
        var good := CheckOr(hash, claim[i].value, m);
        if good != Some(true) { return good; }
        var genuine := CheckIdentification(claim[i].value);
        if genuine != Some(true) { return genuine; }
      }
      return Some(true);
    }
  }

  lemma {:induction false} ResolveFails(t: KeyPair, claim: Row, n: nat, draws: Draws, k: nat)
    requires k < n && TokenSignature(t, claim, k, draws).None?
    ensures ResolveToken(t, claim, n, draws).None?
  {
    if k < n - 1 { ResolveFails(t, claim, n - 1, draws, k); }
  }

  /** A token can be built exactly when there is a first clause to open for each of the n parties. */
  lemma {:induction false} TokenExactly(t: KeyPair, claim: Row, n: nat, draws: Draws)
    requires t.pub.p > 0
    ensures ResolveToken(t, claim, n, draws).Some?
            <==> n <= |claim| && forall k :: 0 <= k < n ==> claim[k].Some? && claim[k].value.ands != []
  {
    if n > 0 {
      TokenExactly(t, claim, n - 1, draws);
      OneTokenExactly(t, claim, n - 1, draws);
    }
  }

  lemma OneTokenExactly(t: KeyPair, claim: Row, k: nat, draws: Draws)
    requires t.pub.p > 0
    ensures TokenSignature(t, claim, k, draws).Some? <==> k < |claim| && claim[k].Some? && claim[k].value.ands != []
  {
  }

  // ----- what the gate lets through -----

  ghost predicate EntryAccepted(hash: Hash, t: KeyPair, m: string, entry: Option<Or>) {
    && entry.Some? && OrVerifies(hash, entry.value, m) == Some(true)
    && VerifiesRes(t, entry.value.ands, false) == Some(true)
  }

  lemma AcceptedHead(hash: Hash, t: KeyPair, m: string, claim: Row)
    requires claim != []
    ensures ClaimAccepted(hash, t, m, claim) == Some(true)
            <==> EntryAccepted(hash, t, m, claim[0]) && ClaimAccepted(hash, t, m, claim[1..]) == Some(true)
  {
  }

  /** A row passes the gate exactly when each of its entries does by itself. */
  lemma {:induction false} AcceptedExactly(hash: Hash, t: KeyPair, m: string, claim: Row)
    ensures ClaimAccepted(hash, t, m, claim) == Some(true)
            <==> forall k :: 0 <= k < |claim| ==> EntryAccepted(hash, t, m, claim[k])
    decreases |claim|
  {
    if claim != [] {
      AcceptedHead(hash, t, m, claim);
      AcceptedExactly(hash, t, m, claim[1..]);
      AllFromHead(claim, entry => EntryAccepted(hash, t, m, entry));
    }
  }

  /** The clause can be read, and its number is the identification of the key of its first response. */
  ghost predicate ClauseNames(t: KeyPair, clause: And) {
    && ClauseReadable(t, clause)
    && Decryption(t, clause.res).value == Signed(IdentificationData(clause.rK[clause.responses[0]].y).value)
  }

  ghost predicate ClauseReadable(t: KeyPair, clause: And) {
    && clause.responses != [] && clause.responses[0] in clause.rK
    && IdentificationData(clause.rK[clause.responses[0]].y).Some? && Decryption(t, clause.res).Some?
  }

  /** The identification test passes exactly when all clauses can be read and some clause names its first key. */
  lemma {:induction false} NamesExactly(t: KeyPair, ands: seq<And>, isVerified: bool)
    ensures VerifiesRes(t, ands, isVerified) == Some(true)
            <==> && (forall i :: 0 <= i < |ands| ==> ClauseReadable(t, ands[i]))
                 && (isVerified || exists i :: 0 <= i < |ands| && ClauseNames(t, ands[i]))
    decreases |ands|
  {
    if ands != [] {
      AllFromHead(ands, clause => ClauseReadable(t, clause));
      AllFromHead(ands, clause => !ClauseNames(t, clause));
      if ClauseReadable(t, ands[0]) { NamesExactly(t, ands[1..], isVerified || ClauseNames(t, ands[0])); }
    }
  }

  // ----- what Trent can rely on -----

  /** Decrypting gives the encrypted number mod p, for every exponent and although v is not reduced. */
  lemma DecryptionCorrect(t: KeyPair, k: int, m: int)
    requires WellFormedPair(t)
    ensures var res := ResEncrypt(Exp(t.pub.g, k, t.pub.p), Exp(t.pub.y, k, t.pub.p) * m, m);
            Decryption(t, res) == Some(m % t.pub.p)
  {
    var p := t.pub.p;
    KeyUnits(t.pub);
    ExpUnit(t.pub.g, k, p);
    Engine.SharedSecretCancels(p, t.pub.g, t.x, k);
    UnreducedAlgebra(Exp(Exp(t.pub.g, k, p), p - 1 - t.x, p), Exp(t.pub.y, k, p), m, p);
  }

  lemma UnreducedAlgebra(z: int, y: int, m: int, p: int)
    requires p >= 2 && (z * y) % p == 1
    ensures (z * (y * m)) % p == m % p
  {
    assert z * (y * m) == (z * y) * m;
    DivModUnique(1, 0, 1, p);
    MulCong(z * y, 1, m, p);
  }

  /** `encryptForContract` followed by Trent's decryption. */
  lemma EncryptThenDecrypt(t: KeyPair, data: seq<Byte>, k: int)
    requires WellFormedPair(t) && Encryption(t.pub, data, k).Some?
    ensures Decryption(t, Encryption(t.pub, data, k).value) == Some(Signed(data) % t.pub.p)
  {
    KeyUnits(t.pub);
    DecryptionCorrect(t, k, Signed(data));
  }

  /** Every signature made with a fresh encryption passes the identification test. */
  lemma FreshPcsIdentified(hash: Hash, me: KeyPair, t: KeyPair, receiver: Key, m: string, coins: Coins)
    requires WellFormedPair(me) && WellFormedPair(t) && WellFormed(receiver)
    requires IdentificationData(receiver.y).Some?
    requires FreshPcs(hash, me, t.pub, receiver, m, coins).Some?
    ensures VerifiesRes(t, FreshPcs(hash, me, t.pub, receiver, m, coins).value.ands, false) == Some(true)
  {
    var data := IdentificationData(me.pub.y).value;
    var res := Encryption(t.pub, data, coins.k).value;
    EncryptionGenuine(t.pub, me.pub.y, coins.k);
    DecryptionCorrect(t, coins.k, res.m);
    DivModUnique(res.m, 0, res.m, t.pub.p);
    PcsShape(hash, me, t.pub, receiver, m, res, coins.k, coins);
    var ands := FreshPcs(hash, me, t.pub, receiver, m, coins).value.ands;
    TwoClausesIdentified(t, ands[0], ands[1], me.pub, receiver);
    assert ands == [ands[0], ands[1]];
  }

  ghost predicate ClauseShape(clause: And, key: Key, res: ResEncrypt) {
    && clause.res == res && clause.responses != []
    && clause.responses[0] in clause.rK && clause.rK[clause.responses[0]] == key
  }

  lemma PcsShape(hash: Hash, me: KeyPair, t: Key, receiver: Key, m: string, res: ResEncrypt, k: int, coins: Coins)
    requires CreatePcs(hash, me, t, receiver, m, res, k, coins).Some?
    ensures var ands := CreatePcs(hash, me, t, receiver, m, res, k, coins).value.ands;
            |ands| == 2 && ClauseShape(ands[0], me.pub, res) && ClauseShape(ands[1], receiver, res)
  {
  }

  lemma TwoClausesIdentified(t: KeyPair, first: And, second: And, me: Key, receiver: Key)
    requires ClauseShape(first, me, first.res) && ClauseShape(second, receiver, second.res)
    requires IdentificationData(me.y).Some? && IdentificationData(receiver.y).Some?
    requires Decryption(t, first.res) == Some(Signed(IdentificationData(me.y).value))
    requires Decryption(t, second.res).Some?
    ensures VerifiesRes(t, [first, second], false) == Some(true)
  {
    assert [first, second][1..] == [second] && [second][1..] == [];
    assert VerifiesRes(t, [], true) == Some(true);
    assert VerifiesRes(t, [second], true) == Some(true);
  }

  /** Trent's response to a genuine ciphertext exists and verifies. */
  lemma CcdAccepted(t: KeyPair, k: int, res: ResEncrypt, s: int, digest: Digest)
    requires WellFormedPair(t) && Encrypts(t.pub, k, res)
    ensures var response := CcdResponse(t, res, s, digest);
            response.Some? && Verifies(response.value, t.pub, res) == Some(true)
  {
    KeyUnits(t.pub);
    EncryptionUnits(t.pub, k, res);
    var a := Exp(t.pub.g, s, t.pub.p);
    CcdComplete(t, k, res, s, digest(a));
    assert ModPow(t.pub.g, s, t.pub.p) == Some(a);
    assert ModPow(res.u, s, t.pub.p) == Some(Exp(res.u, s, t.pub.p));
  }

  /** It answers the digest of its first mask with Trent's secret, and the second one has the same exponent. */
  lemma CcdTranscript(t: KeyPair, k: int, res: ResEncrypt, s: int, digest: Digest)
    requires WellFormedPair(t) && Encrypts(t.pub, k, res)
    ensures var response := CcdResponse(t, res, s, digest);
            && response.Some? && response.value.CCD?
            && response.value.masks == Masks(Exp(t.pub.g, s, t.pub.p), Some(Exp(res.u, s, t.pub.p)))
            && response.value.challenge == digest(response.value.masks.a)
            && response.value.response == t.x * response.value.challenge + s
  {
    KeyUnits(t.pub);
    EncryptionUnits(t.pub, k, res);
  }

  /**
   * Whoever made the entry: Trent's signature is the entry with an opening of its first clause, made with the random
   * numbers drawn for this party.
   */
  lemma TokenTranscript(t: KeyPair, claim: Row, k: nat, draws: Draws, x: int)
    requires WellFormedPair(t) && k < |claim| && claim[k].Some? && claim[k].value.ands != []
    requires Encrypts(t.pub, x, claim[k].value.ands[0].res)
    ensures var res := claim[k].value.ands[0].res;
            var signature := TokenSignature(t, claim, k, draws);
            && signature.Some? && signature.value.pcs == claim[k].value && signature.value.trentK == t.pub
            && Opened(signature.value)
            && signature.value.rpcs.masks.a == Exp(t.pub.g, draws(k).0, t.pub.p)
            && signature.value.rpcs.masks.aBis == Some(Exp(res.u, draws(k).0, t.pub.p))
            && signature.value.rpcs.challenge == draws(k).1(signature.value.rpcs.masks.a)
  {
    var res := claim[k].value.ands[0].res;
    CcdTranscript(t, x, res, draws(k).0, draws(k).1);
    CcdAccepted(t, x, res, draws(k).0, draws(k).1);
  }

  /** The signature Trent builds around a fresh one verifies for the signer on the same message. */
  lemma TokenSignatureAccepted(hash: Hash, me: KeyPair, t: KeyPair, receiver: Key, m: string, coins: Coins,
                               s: int, digest: Digest)
    requires WellFormedPair(me) && WellFormedPair(t) && WellFormed(receiver)
    requires FreshPcs(hash, me, t.pub, receiver, m, coins).Some?
    ensures var pcs := FreshPcs(hash, me, t.pub, receiver, m, coins).value;
            && pcs.ands != []
            && var response := CcdResponse(t, pcs.ands[0].res, s, digest);
               response.Some?
               && Verify(hash, Some(me.pub), Some(t.pub), m, Signature(pcs, response.value, t.pub)) == Some(true)
  {
    var data := IdentificationData(me.pub.y).value;
    var res := Encryption(t.pub, data, coins.k).value;
    EncryptionGenuine(t.pub, me.pub.y, coins.k);
    PcsComplete(hash, me, t.pub, receiver, m, res, coins.k, coins);
    CcdAccepted(t, coins.k, res, s, digest);
    var pcs := FreshPcs(hash, me, t.pub, receiver, m, coins).value;
    GenuineVerdict(hash, me.pub.y, t.pub, Some(me.pub), Some(t.pub), m,
                   Signature(pcs, CcdResponse(t, res, s, digest).value, t.pub));
  }

  /** A row in which entry j was freshly made by party j for the receiver. */
  ghost predicate HonestRow(hash: Hash, parties: seq<KeyPair>, t: Key, receiver: Key, m: string, row: Row) {
    && |row| == |parties|
    && forall j :: 0 <= j < |row| ==> row[j].Some? && HonestEntry(hash, parties[j], t, receiver, m, row[j].value)
  }

  ghost predicate HonestEntry(hash: Hash, me: KeyPair, t: Key, receiver: Key, m: string, entry: Or) {
    exists coins :: FreshPcs(hash, me, t, receiver, m, coins) == Some(entry)
  }

  /** Trent lets an honest row through. */
  lemma {:induction false} HonestRowAccepted(hash: Hash, parties: seq<KeyPair>, t: KeyPair, receiver: Key, m: string,
                                             row: Row)
    requires WellFormedPair(t) && WellFormed(receiver) && IdentificationData(receiver.y).Some?
    requires forall j :: 0 <= j < |parties| ==> WellFormedPair(parties[j])
    requires HonestRow(hash, parties, t.pub, receiver, m, row)
    ensures ClaimAccepted(hash, t, m, row) == Some(true)
    decreases |row|
  {
    if row != [] {
      assert HonestEntry(hash, parties[0], t.pub, receiver, m, row[0].value);
      var coins :| FreshPcs(hash, parties[0], t.pub, receiver, m, coins) == row[0];
      FreshPcsComplete(hash, parties[0], t.pub, receiver, m, coins);
      FreshPcsIdentified(hash, parties[0], t, receiver, m, coins);
      forall j | 0 <= j < |row[1..]|
        ensures row[1..][j].Some? && HonestEntry(hash, parties[1..][j], t.pub, receiver, m, row[1..][j].value)
      {
        assert HonestEntry(hash, parties[j + 1], t.pub, receiver, m, row[j + 1].value);
      }
      HonestRowAccepted(hash, parties[1..], t, receiver, m, row[1..]);
    }
  }

  /** From an honest row Trent builds a signature for every party, and each verifies for its party. */
  lemma HonestRowResolved(hash: Hash, parties: seq<KeyPair>, t: KeyPair, receiver: Key, m: string, row: Row,
                          draws: Draws)
    requires WellFormedPair(t) && WellFormed(receiver)
    requires forall j :: 0 <= j < |parties| ==> WellFormedPair(parties[j])
    requires HonestRow(hash, parties, t.pub, receiver, m, row)
    ensures var token := ResolveToken(t, row, |parties|, draws);
            && token.Some?
            && forall j :: 0 <= j < |parties| ==>
                 Verify(hash, Some(parties[j].pub), Some(t.pub), m, token.value[j]) == Some(true)
  {
    forall j: nat | j < |parties|
      ensures var sig := TokenSignature(t, row, j, draws);
              sig.Some? && Verify(hash, Some(parties[j].pub), Some(t.pub), m, sig.value) == Some(true)
    {
      assert HonestEntry(hash, parties[j], t.pub, receiver, m, row[j].value);
      var coins :| FreshPcs(hash, parties[j], t.pub, receiver, m, coins) == row[j];
      TokenSignatureAccepted(hash, parties[j], t, receiver, m, coins, draws(j).0, draws(j).1);
    }
  }
}
