/** What must have been signed, and by whom, before an honest party or Trent takes notice of it. */
module Genuine {
  import opened Wrappers
  import opened NumberTheory
  import opened ModPower
  import opened Bytes
  import opened Identity
  import opened Sigma
  import opened Pcs
  import opened SigmaSigner
  import opened Trent
  import opened TrentSolver
  import opened TrentService
  import opened SignStep
  import opened SignProtocol
  import opened SignRuns
  import opened Answers
  import opened EndToEnd

  // ----- what honest parties hold -----

  /**
   * The signature is opened under the public number of Trent, and its promise verifies on the contract, or on the
   * contract and a round, in the name of party k.
   */
  ghost predicate Proven(w: World, k: nat, sig: Signature)
    requires k < |w.parties|
  {
    && Opened(sig) && sig.trentK.y == w.desk.keys.pub.y
    && (OrVerifies(w.desk.hash, sig.pcs, w.contract) == Some(true)
        || exists q :: ProvenIn(w, k, sig, q))
  }

  ghost predicate ProvenIn(w: World, k: nat, sig: Signature, q: int)
    requires k < |w.parties|
  {
    && OrVerifies(w.desk.hash, sig.pcs, RoundText(w.contract, q)) == Some(true)
    && NamesSigner(sig, Some(w.parties[k].pub))
  }

  lemma VouchedProven(w: World, k: nat, sig: Signature)
    requires k < |w.parties| && Vouched(EnvOf(w), k, sig)
    ensures Proven(w, k, sig)
  {
    var t := Some(w.desk.keys.pub);
    if EnvOf(w).clearAccepted(sig) == Some(true) {
      VerifyExactly(w.desk.hash, None, t, w.contract, sig);
    } else {
      var q :| EnvOf(w).signed(k, sig, Some(q)) == Some(true);
      VerifyExactly(w.desk.hash, Some(w.parties[k].pub), t, RoundText(w.contract, q), sig);
      assert ProvenIn(w, k, sig, q);
    }
  }

  /** Whatever the dishonest parties and Trent send: every signature that an honest party ever holds is proven. */
  lemma HeldProven(w: World, honest: set<nat>, events: seq<Event>, i: nat, k: nat)
    requires ValidWorld(w, honest) && i in honest && i < |w.parties|
    requires k in WorldRun(w, honest, events).parties[i].signatures
    ensures k < |w.parties| && Proven(w, k, WorldRun(w, honest, events).parties[i].signatures[k])
  {
    WorldValid(w, honest);
    RunSignaturesOk(w, honest, events, i);
    HeldVouched(EnvOf(w), honest, events, i);
    VouchedProven(w, k, WorldRun(w, honest, events).parties[i].signatures[k]);
  }

  /** A promise whose opening fails is never stored as a clear signature. */
  lemma UnopenedNotStored(w: World, s: Party, k: nat, sig: Signature)
    requires !Opened(sig)
    ensures StoreClear(EnvOf(w), s, k, sig).0 == s
  {
    VerifyExactly(w.desk.hash, None, Some(w.desk.keys.pub), w.contract, sig);
  }

  /** Nor is it taken from Trent's answer: what the party held for k before is what it holds for k afterwards. */
  lemma UnopenedNotTaken(w: World, round: int, held: map<nat, Signature>, signatures: seq<Signature>, k: nat)
    requires k < |signatures| == |w.parties| && !Opened(signatures[k])
    ensures !Own(EnvOf(w), round, signatures, k)
    ensures var all := Held(EnvOf(w), round, held, signatures, |signatures|);
            (k in all <==> k in held) && (k in held ==> all[k] == held[k])
  {
    UnopenedUnsigned(w, k, signatures[k], round);
    UnopenedUnsigned(w, k, signatures[k], round - 1);
    UnopenedUnsigned(w, k, signatures[k], round - 2);
    HeldAt(EnvOf(w), round, held, signatures, |signatures|, k);
  }

  lemma UnopenedUnsigned(w: World, k: nat, sig: Signature, q: int)
    requires k < |w.parties| && !Opened(sig)
    ensures EnvOf(w).signed(k, sig, Some(q)) != Some(true)
  {
    VerifyExactly(w.desk.hash, Some(w.parties[k].pub), Some(w.desk.keys.pub), RoundText(w.contract, q), sig);
  }

  /** In particular a bare promise, with zeros where the opening should be, is nobody's signature on anything. */
  lemma PromiseIsNoSignature(hash: Hash, receiver: Option<Key>, trentK: Option<Key>, m: string, promise: Or, t: Key)
    requires t.p >= 2
    ensures Verify(hash, receiver, trentK, m, Signature(promise, NO_SIGNATURE.rpcs, t)) != Some(true)
  {
    var sig := Signature(promise, NO_SIGNATURE.rpcs, t);
    VerifyExactly(hash, receiver, trentK, m, sig);
    if Opened(sig) {
      assert Pow(t.g, 0) == 1 && Pow(t.y, 0) == 1;
      DivModUnique(1, 0, 1, t.p);
      DivModUnique(0, 0, 0, t.p);
      assert false;
    }
  }

  // ----- who can seal an answer -----

  /** The key that a party expects behind the seal, if any. */
  function ExpectedKey(w: World, x: Expected): Option<Key> {
    match x
    case Anyone => None
    case OfTrent => Some(w.desk.keys.pub)
    case OfParty(k) => if k < |w.parties| then Some(w.parties[k].pub) else None
  }

  /**
   * A seal that somebody made is accepted exactly by a party that expects nobody in particular or somebody with this
   * identification: Trent's alone is asked for from the party's own claim on.
   */
  lemma SealByAnyone(w: World, me: KeyPair, receiver: Key, answer: Answer, coins: (Coins, int), x: Expected)
    requires WellFormedPair(me) && WellFormed(w.desk.keys.pub) && WellFormed(receiver)
    requires Identified(w.desk.keys.pub, me.pub)
    ensures var t := w.desk.keys.pub;
            var seal := Sign(w.desk.hash, me, Some(t), Some(receiver), w.desk.told(answer), coins.0, coins.1);
            && seal.Some?
            && (SealedBy(w, x, answer, seal.value) == Some(true)
                <==> var k := ExpectedKey(w, x);
                     k.Some? ==> IdentificationData(k.value.y) == IdentificationData(me.pub.y))
  {
    var t := w.desk.keys.pub;
    SignThenVerify(w.desk.hash, me, t, receiver, w.desk.told(answer), coins.0, coins.1, ExpectedKey(w, x), Some(t));
  }

  /** Whoever made it, an accepted seal is an opened signature on the answer, in the name of the key expected. */
  lemma SealAcceptedExactly(w: World, x: Expected, answer: Answer, seal: Signature)
    ensures SealedBy(w, x, answer, seal) == Some(true)
            <==> && Opened(seal) && OrVerifies(w.desk.hash, seal.pcs, w.desk.told(answer)) == Some(true)
                 && NamesSigner(seal, ExpectedKey(w, x)) && seal.trentK.y == w.desk.keys.pub.y
  {
    VerifyExactly(w.desk.hash, ExpectedKey(w, x), Some(w.desk.keys.pub), w.desk.told(answer), seal);
  }

  // ----- whom Trent lets in -----

  /**
   * A request is let in exactly if it carries an opened signature on itself in its sender's name, and, for rounds from
   * 1 on, is a row whose entries all verify for the contract and the round and name somebody Trent can decrypt.
   */
  lemma AdmittedExactly(d: Desk, l: Letter)
    ensures Admitted(d, l) == Some(true) <==>
              && Opened(l.signature) && OrVerifies(d.hash, l.signature.pcs, d.written(l.request)) == Some(true)
              && NamesSigner(l.signature, Some(SenderKey(d.keys, l.sender))) && l.signature.trentK.y == d.keys.pub.y
              && (l.round >= 1 ==>
                    && l.request.Promises?
                    && var m := RoundText(l.contract.text, l.round);
                       forall k :: 0 <= k < |l.request.row| ==> EntryAccepted(d.hash, d.keys, m, l.request.row[k]))
  {
    VerifyExactly(d.hash, Some(SenderKey(d.keys, l.sender)), Some(d.keys.pub), d.written(l.request), l.signature);
    if l.request.Promises? { AcceptedExactly(d.hash, d.keys, RoundText(l.contract.text, l.round), l.request.row); }
  }

  /** The signature was made around the identification of y. */
  ghost predicate MadeAround(sig: Signature, y: int) {
    && IdentificationData(y).Some? && Signed(IdentificationData(y).value) < sig.trentK.p
    && sig.pcs.ands != [] && sig.pcs.ands[0].res.m == Signed(IdentificationData(y).value)
  }

  /** The letter was signed around another identification than that of the sender it names. */
  ghost predicate Forged(l: Letter) {
    exists y :: MadeAround(l.signature, y) && IdentificationData(y) != IdentificationData(l.sender)
  }

  /** For every desk, whatever it has heard before: such a letter is not let in, and leaves all solvers as they are. */
  lemma ForgedKeptOut(d: Desk, cases: Cases, v: Delivery)
    requires Forged(v.letter)
    ensures Admitted(d, v.letter) != Some(true)
    ensures var (cases', o) := Handle(d, cases, v);
            cases' == cases && (o.Silent? || o.Failed?)
  {
    var y :| MadeAround(v.letter.signature, y) && IdentificationData(y) != IdentificationData(v.letter.sender);
    if IdentificationData(v.letter.sender).Some? {
      IdentificationPositive(y);
      OtherSignerRefused(d.hash, y, SenderKey(d.keys, v.letter.sender), Some(d.keys.pub), d.written(v.letter.request),
                         v.letter.signature);
    }
  }

  /** Everything that the signing code makes for somebody with another identification is such a letter. */
  lemma SignedByAnother(hash: Hash, me: KeyPair, t: Key, to: Key, m: string, coins: Coins, opening: int, l: Letter)
    requires WellFormedPair(me) && WellFormed(t) && WellFormed(to)
    requires Sign(hash, me, Some(t), Some(to), m, coins, opening) == Some(l.signature)
    requires IdentificationData(l.sender) != IdentificationData(me.pub.y)
    ensures Forged(l)
  {
    SignTranscript(hash, me, t, to, m, coins, opening);
    SignThenVerify(hash, me, t, to, m, coins, opening, None, None);
    PcsTranscript(hash, me, t, to, m, l.signature.pcs.ands[0].res, coins.k, coins);
    assert MadeAround(l.signature, me.pub.y);
  }

  ghost function WithoutForged(deliveries: seq<Delivery>): seq<Delivery> {
    Those(deliveries, (v: Delivery) => !Forged(v.letter))
  }

  /** So Trent's solvers are what they would be without any forged letters. */
  lemma {:induction false} ForgedIgnored(d: Desk, deliveries: seq<Delivery>)
    ensures TrentService.Run(d, deliveries).0 == TrentService.Run(d, WithoutForged(deliveries)).0
    decreases |deliveries|
  {
    if deliveries != [] {
      var last := |deliveries| - 1;
      var before := deliveries[..last];
      ForgedIgnored(d, before);
      if Forged(deliveries[last].letter) {
        ForgedKeptOut(d, TrentService.Run(d, before).0, deliveries[last]);
      } else {
        var rest := WithoutForged(before);
        assert (rest + [deliveries[last]])[..|rest|] == rest;
      }
    }
  }
}
