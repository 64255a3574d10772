/** The whole protocol with the real signatures: what an honest party's claim leads to. */
module EndToEnd {
  import opened Wrappers
  import opened ModPower
  import opened Bytes
  import opened Identity
  import opened Sigma
  import opened Pcs
  import opened SigmaSigner
  import opened Trent
  import opened TrentSolver
  import opened TrentService
  import opened SignStep
  import opened SignProtocol
  import opened Answers
  import Completion

  /** The keys, the contract, every random number, how Trent writes, and the users' wishes. */
  datatype World = World(
    desk: Desk,
    contract: string,
    parties: seq<KeyPair>,
    coins: (nat, int, nat) -> Coins,
    clearCoins: (nat, nat) -> (Coins, int),
    refuse: (nat, int) -> bool)

  /** The identification of a key exists and fits below Trent's modulus. */
  ghost predicate Identified(t: Key, k: Key) {
    IdentificationData(k.y).Some? && Signed(IdentificationData(k.y).value) < t.p
  }

  /**
   * Trent's keys are in order; all public keys are, and have an identification; and the honest parties, of whom alone
   * the secret matters, fit below Trent's modulus.
   */
  ghost predicate ValidWorld(w: World, honest: set<nat>) {
    var t := w.desk.keys;
    && WellFormedPair(t) && Identified(t.pub, t.pub)
    && (forall i :: i in honest ==> i < |w.parties|)
    && (forall i :: 0 <= i < |w.parties| ==>
          WellFormed(w.parties[i].pub) && IdentificationData(w.parties[i].pub.y).Some?)
    && (forall i :: i in honest ==> WellFormedPair(w.parties[i]) && Identified(t.pub, w.parties[i].pub))
  }

  /** All parties run the code. */
  ghost predicate HonestWorld(w: World) {
    ValidWorld(w, Everybody(|w.parties|))
  }

  function PromiseOf(w: World, i: nat, q: int, k: nat): Option<Or>
    requires i < |w.parties| && k < |w.parties|
  {
    FreshPcs(w.desk.hash, w.parties[i], w.desk.keys.pub, w.parties[k].pub, RoundText(w.contract, q), w.coins(i, q, k))
  }

  function ClearOf(w: World, i: nat, k: nat): Option<Signature>
    requires i < |w.parties| && k < |w.parties|
  {
    Sign(w.desk.hash, w.parties[i], Some(w.desk.keys.pub), Some(w.parties[k].pub), w.contract, w.clearCoins(i, k).0,
         w.clearCoins(i, k).1)
  }

  /** The test of a signature as that of party k; the last argument is the round, if any. */
  function SignedBy(w: World, k: nat, sig: Signature, q: Option<int>): Option<bool> {
    if k >= |w.parties| then None
    else
      Verify(w.desk.hash, Some(w.parties[k].pub), Some(w.desk.keys.pub),
             if q.None? then w.contract else RoundText(w.contract, q.value), sig)
  }

  function SealedBy(w: World, x: Expected, answer: Answer, seal: Signature): Option<bool> {
    var receiver := match x
      case Anyone => None
      case OfTrent => Some(w.desk.keys.pub)
      case OfParty(k) => if k < |w.parties| then Some(w.parties[k].pub) else None;
    Verify(w.desk.hash, receiver, Some(w.desk.keys.pub), w.desk.told(answer), seal)
  }

  /** What the parties compute, as the protocol sees it. */
  function EnvOf(w: World): Env {
    Env(
      |w.parties|,
      (i: nat, q: int, k: nat) =>
        if i < |w.parties| && k < |w.parties| && PromiseOf(w, i, q, k).Some? then PromiseOf(w, i, q, k).value
        else NO_PROMISE,
      (q: int, p: Or) => OrVerifies(w.desk.hash, p, RoundText(w.contract, q)),
      (i: nat, k: nat) =>
        if i < |w.parties| && k < |w.parties| && ClearOf(w, i, k).Some? then ClearOf(w, i, k).value else NO_SIGNATURE,
      (sig: Signature) => Verify(w.desk.hash, None, Some(w.desk.keys.pub), w.contract, sig),
      (k: nat, sig: Signature, q: Option<int>) => SignedBy(w, k, sig, q),
      (x: Expected, answer: Answer, seal: Signature) => SealedBy(w, x, answer, seal),
      w.refuse)
  }

  // ----- the real computations are what the protocol needs -----

  /** A signature that verified once never makes `verify` throw, whatever the message and the expected signer. */
  lemma VerifyReturns(hash: Hash, receiver: Option<Key>, trentK: Option<Key>, m: string, sig: Signature,
                      receiver': Option<Key>, m': string)
    requires Verify(hash, receiver, trentK, m, sig) == Some(true)
    requires receiver'.Some? ==> IdentificationData(receiver'.value.y).Some?
    ensures Verify(hash, receiver', trentK, m', sig).Some?
  {
  }

  lemma HonestSignaturesAccepted(w: World, honest: set<nat>, i: nat, k: nat)
    requires ValidWorld(w, honest) && i in honest && i < |w.parties| && k < |w.parties|
    ensures forall q: int ::
              && PromiseOf(w, i, q, k).Some?
              && OrVerifies(w.desk.hash, PromiseOf(w, i, q, k).value, RoundText(w.contract, q)) == Some(true)
    ensures ClearOf(w, i, k).Some?
            && Verify(w.desk.hash, None, Some(w.desk.keys.pub), w.contract, ClearOf(w, i, k).value) == Some(true)
  {
    var t := w.desk.keys.pub;
    forall q: int
      ensures PromiseOf(w, i, q, k).Some?
              && OrVerifies(w.desk.hash, PromiseOf(w, i, q, k).value, RoundText(w.contract, q)) == Some(true)
    {
      FreshPcsComplete(w.desk.hash, w.parties[i], t, w.parties[k].pub, RoundText(w.contract, q), w.coins(i, q, k));
    }
    SignThenVerify(w.desk.hash, w.parties[i], t, w.parties[k].pub, w.contract, w.clearCoins(i, k).0,
                   w.clearCoins(i, k).1, None, Some(t));
  }

  /** Whoever a signature verified for, and on whatever, it can be tested as one of party k in every round. */
  lemma VerifiedTestable(w: World, honest: set<nat>, k: nat, sig: Signature, receiver: Option<Key>, m: string)
    requires ValidWorld(w, honest) && k < |w.parties|
    requires Verify(w.desk.hash, receiver, Some(w.desk.keys.pub), m, sig) == Some(true)
    ensures Testable(EnvOf(w), k, sig)
  {
    forall r: Option<int> ensures EnvOf(w).signed(k, sig, r).Some? {
      VerifyReturns(w.desk.hash, receiver, Some(w.desk.keys.pub), m, sig, Some(w.parties[k].pub),
                    if r.None? then w.contract else RoundText(w.contract, r.value));
    }
  }

  lemma HonestPartsValid(w: World, honest: set<nat>)
    requires ValidWorld(w, honest)
    ensures var e := EnvOf(w);
            && (forall i: nat, q: int, k: nat :: i in honest && k < e.n ==>
                  e.accepts(q, e.promise(i, q, k)) == Some(true))
            && (forall i: nat, k: nat :: i in honest && k < e.n ==> e.clearAccepted(e.clear(i, k)) == Some(true))
  {
    forall i: nat, q: int, k: nat | i in honest && k < |w.parties|
      ensures EnvOf(w).accepts(q, EnvOf(w).promise(i, q, k)) == Some(true)
    {
      HonestSignaturesAccepted(w, honest, i, k);
    }
    forall i: nat, k: nat | i in honest && k < |w.parties|
      ensures EnvOf(w).clearAccepted(EnvOf(w).clear(i, k)) == Some(true)
    {
      HonestSignaturesAccepted(w, honest, i, k);
    }
  }

  lemma AcceptedTestable(w: World, honest: set<nat>)
    requires ValidWorld(w, honest)
    ensures forall sig, k: nat :: k < |w.parties| && EnvOf(w).clearAccepted(sig) == Some(true) ==>
              Testable(EnvOf(w), k, sig)
  {
    forall sig, k: nat | k < |w.parties| && EnvOf(w).clearAccepted(sig) == Some(true) ensures Testable(EnvOf(w), k, sig)
    {
      VerifiedTestable(w, honest, k, sig, None, w.contract);
    }
  }

  lemma SignedTestable(w: World, honest: set<nat>)
    requires ValidWorld(w, honest)
    ensures forall sig, k: nat, q :: k < |w.parties| && EnvOf(w).signed(k, sig, q) == Some(true) ==>
              Testable(EnvOf(w), k, sig)
  {
    forall sig, k: nat, q | k < |w.parties| && EnvOf(w).signed(k, sig, q) == Some(true)
      ensures Testable(EnvOf(w), k, sig)
    {
      VerifiedTestable(w, honest, k, sig, Some(w.parties[k].pub),
                       if q.None? then w.contract else RoundText(w.contract, q.value));
    }
  }

  /** So the assumptions of the protocol hold of the real signatures, whoever is honest. */
  lemma WorldValid(w: World, honest: set<nat>)
    requires ValidWorld(w, honest)
    ensures ValidEnv(EnvOf(w), honest)
  {
    HonestPartsValid(w, honest);
    AcceptedTestable(w, honest);
    SignedTestable(w, honest);
  }

  // ----- without Trent -----

  lemma WorldHonest(w: World)
    requires HonestWorld(w)
    ensures Completion.HonestEnv(EnvOf(w))
  {
    var e, honest := EnvOf(w), Everybody(|w.parties|);
    WorldValid(w, honest);
    forall i: nat, k: nat | i < e.n && k < e.n ensures e.signed(i, e.clear(i, k), None) == Some(true) {
      assert i in honest && k in honest;
      SignThenVerify(w.desk.hash, w.parties[i], w.desk.keys.pub, w.parties[k].pub, w.contract, w.clearCoins(i, k).0,
                     w.clearCoins(i, k).1, Some(w.parties[i].pub), Some(w.desk.keys.pub));
    }
  }

  /** The optimistic promise for the real signatures. */
  lemma WorldCompletes(w: World, events: seq<Event>, d: nat)
    requires HonestWorld(w) && forall v :: v in events ==> !v.TrentSays?
    requires |w.parties| >= 2 || Heeded(EnvOf(w), Everybody(|w.parties|), events, 0)
    requires d < |w.parties| && Completion.Quiet(EnvOf(w), HonestRun(w, events))
    ensures var s := HonestRun(w, events).parties[d];
            s.status == Finalized && 0 in s.signatures && SignedBy(w, 0, s.signatures[0], None) == Some(true)
  {
    WorldHonest(w);
    Completion.EveryoneCompletes(EnvOf(w), events);
    assert HasClear(EnvOf(w), HonestRun(w, events).parties[d].signatures, 0);
  }

  // ----- the claim -----

  /** A run in which the honest parties run the code, and the others say anything. */
  ghost function WorldRun(w: World, honest: set<nat>, events: seq<Event>): (g: Global)
    ensures |g.parties| == |w.parties|
  {
    SignProtocol.Run(EnvOf(w), honest, events)
  }

  /** A run in which everybody runs the code. */
  ghost function HonestRun(w: World, events: seq<Event>): (g: Global)
    ensures |g.parties| == |w.parties|
  {
    WorldRun(w, Everybody(|w.parties|), events)
  }

  /** What the row of a claim holds: verified promises on the contract and the round, and each honest party's own. */
  ghost predicate ClaimedRow(w: World, honest: set<nat>, from: nat, q: int, row: Row) {
    && |row| == |w.parties| && from < |w.parties|
    && forall k: nat :: k < |row| ==>
         && row[k].Some? && OrVerifies(w.desk.hash, row[k].value, RoundText(w.contract, q)) == Some(true)
         && (k in honest ==> row[k] == PromiseOf(w, k, q, from))
  }

  lemma FullRowClaimed(w: World, honest: set<nat>, i: nat, q: int, row: Row)
    requires ValidWorld(w, honest) && i < |w.parties| && FullRow(EnvOf(w), honest, i, q, row)
    ensures ClaimedRow(w, honest, i, q, row)
  {
    forall k: nat | k < |row| && k in honest ensures row[k] == PromiseOf(w, k, q, i) {
      HonestSignaturesAccepted(w, honest, k, i);
      assert row[k].value == EnvOf(w).promise(k, q, i);
    }
  }

  lemma ClaimIsClaimedRow(w: World, honest: set<nat>, events: seq<Event>, c: Claim)
    requires ValidWorld(w, honest) && c in WorldRun(w, honest, events).claims
    ensures c.from in honest && c.from < |w.parties| && 0 <= c.round <= |w.parties| + 1
    ensures if c.round == 0 then c.request == Abort
            else c.request.Promises? && ClaimedRow(w, honest, c.from, c.round, c.request.row)
  {
    WorldValid(w, honest);
    ClaimsFull(EnvOf(w), honest, events, c);
    if c.round >= 1 { FullRowClaimed(w, honest, c.from, c.round, c.request.row); }
  }

  /** When everybody is honest the row was made by the parties for the claimer. */
  lemma ClaimIsHonestRow(w: World, events: seq<Event>, c: Claim)
    requires HonestWorld(w) && c in HonestRun(w, events).claims && c.round >= 1
    ensures c.from < |w.parties| && c.round <= |w.parties| + 1 && c.request.Promises?
    ensures HonestRow(w.desk.hash, w.parties, w.desk.keys.pub, w.parties[c.from].pub, RoundText(w.contract, c.round),
                      c.request.row)
  {
    ClaimIsClaimedRow(w, Everybody(|w.parties|), events, c);
    var row := c.request.row;
    forall j: nat | j < |row|
      ensures row[j].Some? && HonestEntry(w.desk.hash, w.parties[j], w.desk.keys.pub, w.parties[c.from].pub,
                                          RoundText(w.contract, c.round), row[j].value)
    {
      assert PromiseOf(w, j, c.round, c.from) == row[j];
    }
  }

  /** The contract as Trent reads it. */
  function ContractOf(w: World): ContractEntity {
    ContractEntity(w.contract, seq(|w.parties|, i requires 0 <= i < |w.parties| => w.parties[i].pub))
  }

  /** The letter of an honest claimer: the claim with its signature for Trent. */
  function LetterOf(w: World, c: Claim, coins: (Coins, int)): Option<Letter>
    requires c.from < |w.parties|
  {
    var me := w.parties[c.from];
    var signature :- Sign(w.desk.hash, me, Some(w.desk.keys.pub), Some(w.desk.keys.pub), w.desk.written(c.request),
                          coins.0, coins.1);
    Some(Letter(me.pub.y, c.round, ContractOf(w), c.request, signature))
  }

  lemma SenderAdmitted(w: World, honest: set<nat>, c: Claim, coins: (Coins, int))
    requires ValidWorld(w, honest) && c.from in honest && c.from < |w.parties|
    ensures LetterOf(w, c, coins).Some? && SenderSigned(w.desk, LetterOf(w, c, coins).value) == Some(true)
  {
    var t, me := w.desk.keys, w.parties[c.from];
    SignThenVerify(w.desk.hash, me, t.pub, t.pub, w.desk.written(c.request), coins.0, coins.1,
                   Some(SenderKey(t, me.pub.y)), Some(t.pub));
  }

  /** Trent can decrypt the identification of somebody in the entry. */
  ghost predicate Names(w: World, entry: Option<Or>) {
    entry.Some? && VerifiesRes(w.desk.keys, entry.value.ands, false) == Some(true)
  }

  /** So it can in what the dishonest parties contributed to a row. */
  ghost predicate OthersName(w: World, honest: set<nat>, row: Row) {
    forall k: nat :: k < |row| && k !in honest ==> Names(w, row[k])
  }

  lemma HonestEntryNames(w: World, honest: set<nat>, k: nat, q: int, i: nat)
    requires ValidWorld(w, honest) && k in honest && k < |w.parties| && i < |w.parties|
    ensures Names(w, PromiseOf(w, k, q, i))
  {
    HonestSignaturesAccepted(w, honest, k, i);
    FreshPcsIdentified(w.desk.hash, w.parties[k], w.desk.keys, w.parties[i].pub, RoundText(w.contract, q),
                       w.coins(k, q, i));
  }

  /** Of a claimed row only the dishonest parties' entries can fail the gate, and only by whom they name. */
  lemma ClaimedRowAccepted(w: World, honest: set<nat>, from: nat, q: int, row: Row)
    requires ValidWorld(w, honest) && ClaimedRow(w, honest, from, q, row)
    ensures ClaimAccepted(w.desk.hash, w.desk.keys, RoundText(w.contract, q), row) == Some(true)
            <==> OthersName(w, honest, row)
    ensures OthersName(w, honest, row) ==> forall k: nat :: k < |row| ==> Names(w, row[k])
  {
    var m := RoundText(w.contract, q);
    AcceptedExactly(w.desk.hash, w.desk.keys, m, row);
    forall k: nat | k < |row|
      ensures EntryAccepted(w.desk.hash, w.desk.keys, m, row[k]) <==> Names(w, row[k])
      ensures k in honest ==> Names(w, row[k])
    {
      if k in honest { HonestEntryNames(w, honest, k, q, from); }
    }
  }

  /**
   * The letter of an honest claim is let in exactly when Trent can decrypt an identification in every entry that a
   * dishonest party contributed; the claimer could not test that.
   */
  lemma ClaimAdmittedExactly(w: World, honest: set<nat>, events: seq<Event>, c: Claim, coins: (Coins, int))
    requires ValidWorld(w, honest) && c in WorldRun(w, honest, events).claims && c.from < |w.parties|
    ensures LetterOf(w, c, coins).Some?
    ensures c.round == 0 || c.request.Promises?
    ensures Admitted(w.desk, LetterOf(w, c, coins).value) == Some(true)
            <==> c.round == 0 || OthersName(w, honest, c.request.row)
  {
    ClaimIsClaimedRow(w, honest, events, c);
    SenderAdmitted(w, honest, c, coins);
    if c.round >= 1 { ClaimedRowAccepted(w, honest, c.from, c.round, c.request.row); }
  }

  /** When everybody is honest, always. */
  lemma ClaimAdmitted(w: World, events: seq<Event>, c: Claim, coins: (Coins, int))
    requires HonestWorld(w) && c in HonestRun(w, events).claims && c.from < |w.parties|
    ensures LetterOf(w, c, coins).Some? && Admitted(w.desk, LetterOf(w, c, coins).value) == Some(true)
  {
    ClaimAdmittedExactly(w, Everybody(|w.parties|), events, c, coins);
    if c.round != 0 { AllHonestName(w, events, c); }
  }

  lemma AllHonestName(w: World, events: seq<Event>, c: Claim)
    requires HonestWorld(w) && c in HonestRun(w, events).claims && c.request.Promises?
    ensures c.round >= 1 && OthersName(w, Everybody(|w.parties|), c.request.row)
  {
    ClaimIsClaimedRow(w, Everybody(|w.parties|), events, c);
  }

  /** From a row that is let in Trent can build a signature around every entry. */
  lemma ClaimedRowToken(w: World, honest: set<nat>, from: nat, q: int, row: Row, draws: Draws)
    requires ValidWorld(w, honest) && ClaimedRow(w, honest, from, q, row) && OthersName(w, honest, row)
    ensures var token := ResolveToken(w.desk.keys, row, |w.parties|, draws);
            token.Some? && forall k :: 0 <= k < |w.parties| ==>
                             token.value[k].pcs == row[k].value && token.value[k].trentK == w.desk.keys.pub
  {
    ClaimedRowAccepted(w, honest, from, q, row);
    forall k: nat | k < |row| ensures row[k].value.ands != [] {
      assert Names(w, row[k]);
    }
    TokenExactly(w.desk.keys, row, |w.parties|, draws);
    var token := ResolveToken(w.desk.keys, row, |w.parties|, draws).value;
    forall k: nat | k < |w.parties| ensures token[k].pcs == row[k].value && token[k].trentK == w.desk.keys.pub {
      assert TokenSignature(w.desk.keys, row, k, draws) == Some(token[k]);
    }
  }

  /** The one around an honest party's entry verifies as its own. */
  lemma HonestTokenSigned(w: World, honest: set<nat>, from: nat, q: int, row: Row, draws: Draws, j: nat)
    requires ValidWorld(w, honest) && ClaimedRow(w, honest, from, q, row) && OthersName(w, honest, row) && j in honest
    ensures j < |w.parties|
    ensures var token := ResolveToken(w.desk.keys, row, |w.parties|, draws);
            token.Some? && SignedBy(w, j, token.value[j], Some(q)) == Some(true)
  {
    ClaimedRowToken(w, honest, from, q, row, draws);
    HonestSignaturesAccepted(w, honest, j, from);
    TokenSignatureAccepted(w.desk.hash, w.parties[j], w.desk.keys, w.parties[from].pub, RoundText(w.contract, q),
                           w.coins(j, q, from), draws(j).0, draws(j).1);
    assert TokenSignature(w.desk.keys, row, j, draws)
           == Some(ResolveToken(w.desk.keys, row, |w.parties|, draws).value[j]);
  }

  /** When everybody is honest, all verify. */
  lemma ClaimResolvable(w: World, events: seq<Event>, c: Claim, draws: Draws)
    requires HonestWorld(w) && c in HonestRun(w, events).claims && c.round >= 1
    ensures c.request.Promises?
    ensures var token := ResolveToken(w.desk.keys, c.request.row, |w.parties|, draws);
            && token.Some?
            && forall j :: 0 <= j < |w.parties| ==> SignedBy(w, j, token.value[j], Some(c.round)) == Some(true)
  {
    ClaimIsHonestRow(w, events, c);
    HonestRowResolved(w.desk.hash, w.parties, w.desk.keys, w.parties[c.from].pub, RoundText(w.contract, c.round),
                      c.request.row, draws);
  }

  // ----- Trent's seals -----

  /** Whether a party that expects x takes Trent's seal for genuine. */
  predicate Trusts(w: World, x: Expected) {
    x.OfParty? && x.k < |w.parties| ==>
      IdentificationData(w.parties[x.k].pub.y) == IdentificationData(w.desk.keys.pub.y)
  }

  ghost predicate SealOk(w: World, answer: Answer, seal: Signature) {
    forall x :: SealedBy(w, x, answer, seal) == Some(Trusts(w, x))
  }

  lemma SealVerdictFor(w: World, honest: set<nat>, receiver: Key, answer: Answer, coins: (Coins, int), x: Expected)
    requires ValidWorld(w, honest) && WellFormed(receiver)
    ensures var seal := Seal(w.desk, receiver, w.desk.told(answer), coins);
            seal.Some? && SealedBy(w, x, answer, seal.value) == Some(Trusts(w, x))
  {
    var t := w.desk.keys;
    var expected := match x
      case Anyone => None
      case OfTrent => Some(t.pub)
      case OfParty(k) => if k < |w.parties| then Some(w.parties[k].pub) else None;
    SignThenVerify(w.desk.hash, t, t.pub, receiver, w.desk.told(answer), coins.0, coins.1, expected, Some(t.pub));
  }

  /**
   * Trent's seal is accepted exactly by a party that does not expect the signature of somebody with another
   * identification.
   */
  lemma SealVerdict(w: World, honest: set<nat>, receiver: Key, answer: Answer, coins: (Coins, int))
    requires ValidWorld(w, honest) && WellFormed(receiver)
    ensures var seal := Seal(w.desk, receiver, w.desk.told(answer), coins);
            seal.Some? && SealOk(w, answer, seal.value)
  {
    SealVerdictFor(w, honest, receiver, answer, coins, Anyone);
    var seal := Seal(w.desk, receiver, w.desk.told(answer), coins).value;
    forall x ensures SealedBy(w, x, answer, seal) == Some(Trusts(w, x)) {
      SealVerdictFor(w, honest, receiver, answer, coins, x);
    }
  }

  /** All seals are Trent's, and there is one for every party. */
  ghost predicate SealsOk(w: World, answer: Answer, seals: map<int, Signature>) {
    && (forall y :: y in seals ==> SealOk(w, answer, seals[y]))
    && forall j :: 0 <= j < |w.parties| ==> w.parties[j].pub.y in seals
  }

  /** Trent can seal any answer for everybody. */
  lemma SealsMade(w: World, honest: set<nat>, answer: Answer, coins: nat -> (Coins, int))
    requires ValidWorld(w, honest)
    ensures var seals := Seals(w.desk, ContractOf(w).parties, w.desk.told(answer), coins);
            seals.Some? && SealsOk(w, answer, seals.value)
  {
    var keys := ContractOf(w).parties;
    var sealing := Sealing(w.desk, w.desk.told(answer), coins);
    forall j: nat | j < |keys| ensures sealing(j, keys[j]).Some? && SealOk(w, answer, sealing(j, keys[j]).value) {
      SealVerdict(w, honest, w.parties[j].pub, answer, coins(j));
    }
    CollectGood(keys, sealing, (seal: Signature) => SealOk(w, answer, seal), |keys|);
    forall j | 0 <= j < |w.parties| ensures w.parties[j].pub.y == keys[j].y {}
  }

  /** The seals of an answer, by party. */
  function ByParty(w: World, seals: map<int, Signature>): map<nat, Signature> {
    map i: nat | i < |w.parties| && w.parties[i].pub.y in seals :: seals[w.parties[i].pub.y]
  }

  // ----- what Trent makes of the first claim -----

  /** The letter of claim c reaches a Trent who has not heard of the contract. */
  ghost predicate FirstLetter(w: World, c: Claim, coins: (Coins, int), cases: Cases, v: Delivery) {
    c.from < |w.parties| && LetterOf(w, c, coins) == Some(v.letter) && w.contract !in cases
  }

  /** What the solver alone makes of it. */
  lemma FirstResolve(w: World, honest: set<nat>, events: seq<Event>, c: Claim, v: Delivery)
    requires ValidWorld(w, honest) && c in WorldRun(w, honest, events).claims
    requires v.letter.round == c.round && v.letter.request == c.request
    requires c.round >= 1 ==> c.request.Promises? && OthersName(w, honest, c.request.row)
    ensures var (s, answer) := Answering(w.desk, Case(|w.parties|, FRESH), v);
            if c.round == 0 then answer.Some? && answer.value.Aborted?
            else if c.round == 1 then
              answer.Some? && answer.value.Resolved?
              && Some(answer.value.signatures) == ResolveToken(w.desk.keys, c.request.row, |w.parties|, v.draws)
            else answer == None && s == Case(|w.parties|, FRESH)
  {
    ClaimIsClaimedRow(w, honest, events, c);
    if c.round == 0 {
      FirstAbort(w.desk.keys, |w.parties|, CallOf(v));
    } else {
      ClaimedRowToken(w, honest, c.from, c.round, c.request.row, v.draws);
      FirstClaim(w.desk.keys, |w.parties|, CallOf(v));
    }
  }

  lemma SendVerdict(w: World, honest: set<nat>, v: Delivery, answer: Option<Answer>)
    requires ValidWorld(w, honest) && v.letter.contract == ContractOf(w)
    requires answer.Some? ==> !answer.value.SenderDishonest?
    ensures var o := Send(w.desk, v, answer);
            if answer.None? then o.Failed?
            else o.Answered? && o.answer == answer.value && SealsOk(w, o.answer, o.seals)
  {
    if answer.Some? { SealsMade(w, honest, answer.value, v.coins); }
  }

  /** What comes of a first claim of round c.round that is let in. */
  ghost predicate FirstVerdict(w: World, c: Claim, cases: Cases, v: Delivery, cases': Cases, o: TrentService.Outcome) {
    if c.round == 0 then
      o.Answered? && o.answer.Aborted? && SealsOk(w, o.answer, o.seals)
    else if c.round == 1 then
      && o.Answered? && o.answer.Resolved? && SealsOk(w, o.answer, o.seals) && c.request.Promises?
      && Some(o.answer.signatures) == ResolveToken(w.desk.keys, c.request.row, |w.parties|, v.draws)
    else
      o.Failed? && cases' == cases[w.contract := Case(|w.parties|, FRESH)]
  }

  /**
   * The first claim of an honest party, whatever the others did before: Trent takes no notice of it, or throws, and
   * remembers nothing, exactly when a dishonest party's entry names nobody it can decrypt. Otherwise it resolves
   * exactly round 1, aborts exactly round 0, and throws on every later round.
   */
  lemma FirstClaimExactly(w: World, honest: set<nat>, events: seq<Event>, c: Claim, coins: (Coins, int), cases: Cases,
                          v: Delivery)
    requires ValidWorld(w, honest) && c in WorldRun(w, honest, events).claims && FirstLetter(w, c, coins, cases, v)
    ensures c.round == 0 || c.request.Promises?
    ensures var (cases', o) := Handle(w.desk, cases, v);
            if c.round == 0 || OthersName(w, honest, c.request.row) then FirstVerdict(w, c, cases, v, cases', o)
            else cases' == cases && (o.Silent? || o.Failed?)
  {
    ClaimAdmittedExactly(w, honest, events, c, coins);
    if c.round == 0 || OthersName(w, honest, c.request.row) {
      FirstResolve(w, honest, events, c, v);
      SendVerdict(w, honest, v, Answering(w.desk, Case(|w.parties|, FRESH), v).1);
    }
  }

  /** When everybody is honest, the claim is always let in: lost is only what is of round 2 or later. */
  lemma FirstClaimVerdict(w: World, events: seq<Event>, c: Claim, coins: (Coins, int), cases: Cases, v: Delivery)
    requires HonestWorld(w) && c in HonestRun(w, events).claims && FirstLetter(w, c, coins, cases, v)
    ensures var (cases', o) := Handle(w.desk, cases, v);
            FirstVerdict(w, c, cases, v, cases', o)
  {
    FirstClaimExactly(w, Everybody(|w.parties|), events, c, coins, cases, v);
    if c.round != 0 { AllHonestName(w, events, c); }
  }

  // ----- what the parties make of the answer -----

  lemma RunSignaturesOk(w: World, honest: set<nat>, events: seq<Event>, d: nat)
    requires ValidWorld(w, honest) && d in honest && d < |w.parties|
    ensures SignaturesOk(EnvOf(w), WorldRun(w, honest, events).parties[d].signatures)
  {
    WorldValid(w, honest);
    SignProtocol.RunKeeps(EnvOf(w), honest, events);
    assert PartyOk(EnvOf(w), d, WorldRun(w, honest, events).parties[d]);
  }

  /** What is known of an honest party at any time after a claim. */
  lemma PartyAfterClaim(w: World, honest: set<nat>, events: seq<Event>, k: nat, c: Claim, d: nat)
    requires ValidWorld(w, honest) && k <= |events| && c in WorldRun(w, honest, events[..k]).claims && c.round >= 1
    requires d in honest
    ensures d < |w.parties|
    ensures var s := WorldRun(w, honest, events).parties[d];
            s.started && SignaturesOk(EnvOf(w), s.signatures) && Tested(s.round, c.round)
  {
    WorldValid(w, honest);
    ThreeRoundsSuffice(EnvOf(w), honest, events, k, c, d);
    RunSignaturesOk(w, honest, events, d);
  }

  lemma SealTaken(w: World, d: nat, x: Expected, answer: Answer, seals: map<int, Signature>)
    requires d < |w.parties| && Trusts(w, x) && SealsOk(w, answer, seals)
    ensures d in ByParty(w, seals) && EnvOf(w).sealed(x, answer, ByParty(w, seals)[d]) == Some(true)
  {
    assert SealOk(w, answer, seals[w.parties[d].pub.y]);
    assert SealedBy(w, x, answer, seals[w.parties[d].pub.y]) == Some(true);
  }

  /** The answer is around the entries of the row, and the honest parties' entries are signed. */
  ghost predicate AnswersRow(w: World, honest: set<nat>, answer: Answer, q: int, row: Row) {
    && |row| == |w.parties|
    && answer.Resolved? && |answer.signatures| == |w.parties|
    && (forall j :: 0 <= j < |row| ==>
          row[j].Some? && answer.signatures[j].pcs == row[j].value && answer.signatures[j].trentK == w.desk.keys.pub)
    && forall j :: j in honest && j < |w.parties| ==> SignedBy(w, j, answer.signatures[j], Some(q)) == Some(true)
  }

  lemma AnswerToFirst(w: World, honest: set<nat>, events: seq<Event>, c: Claim, coins: (Coins, int), cases: Cases,
                      v: Delivery)
    requires ValidWorld(w, honest) && c in WorldRun(w, honest, events).claims && FirstLetter(w, c, coins, cases, v)
    requires c.round == 1 && c.request.Promises? && OthersName(w, honest, c.request.row)
    ensures var o := Handle(w.desk, cases, v).1;
            o.Answered? && SealsOk(w, o.answer, o.seals) && AnswersRow(w, honest, o.answer, c.round, c.request.row)
  {
    FirstClaimExactly(w, honest, events, c, coins, cases, v);
    ClaimIsClaimedRow(w, honest, events, c);
    ClaimedRowToken(w, honest, c.from, c.round, c.request.row, v.draws);
    var signatures := Handle(w.desk, cases, v).1.answer.signatures;
    forall j | j in honest && j < |w.parties| ensures SignedBy(w, j, signatures[j], Some(c.round)) == Some(true) {
      HonestTokenSigned(w, honest, c.from, c.round, c.request.row, v.draws, j);
    }
  }

  lemma WorldTakes(w: World, honest: set<nat>, d: nat, s: Party, answer: Answer, seals: map<int, Signature>, q: int,
                   row: Row, result: (Party, bool))
    requires ValidWorld(w, honest) && d < |w.parties| && Trusts(w, s.expects) && SealsOk(w, answer, seals)
    requires SignaturesOk(EnvOf(w), s.signatures) && Tested(s.round, q) && AnswersRow(w, honest, answer, q, row)
    requires result == OnAnswer(EnvOf(w), d, s, answer, ByParty(w, seals))
    ensures forall j :: j in honest && j < |w.parties| ==> Own(EnvOf(w), s.round, answer.signatures, j)
    ensures result.1 <==> forall j: nat :: j < |w.parties| && j !in honest ==>
                            Readable(EnvOf(w), s.round, answer.signatures, j)
    ensures result.1 ==> Taken(EnvOf(w), s, answer.signatures, result.0)
  {
    var e := EnvOf(w);
    WorldValid(w, honest);
    SealTaken(w, d, s.expects, answer, seals);
    AnswerExactly(e, honest, d, s, answer, ByParty(w, seals), result);
    forall j: nat | j in honest && j < |w.parties| ensures Own(e, s.round, answer.signatures, j) {
      SignedOwn(e, honest, s.round, answer.signatures, q, j);
    }
  }

  /**
   * From an honest claim of round 1 to the end, whatever the others did before and since: when the claim is let in,
   * every honest party that trusts the seal reads the answer exactly if the dishonest parties' signatures can be
   * tested. It then takes those that pass as their party's own, among them all of honest parties, and is finalized
   * exactly if these and what it held make the contract count as finalized, or did so while they were stored, or it
   * was before.
   */
  lemma HonestOutcome(w: World, honest: set<nat>, events: seq<Event>, k: nat, c: Claim, coins: (Coins, int),
                      cases: Cases, v: Delivery, d: nat, s: Party, o: TrentService.Outcome)
    requires ValidWorld(w, honest) && k <= |events| && c in WorldRun(w, honest, events[..k]).claims && c.round == 1
    requires FirstLetter(w, c, coins, cases, v) && o == Handle(w.desk, cases, v).1
    requires c.request.Promises? && OthersName(w, honest, c.request.row)
    requires d in honest && d < |w.parties| && s == WorldRun(w, honest, events).parties[d] && Trusts(w, s.expects)
    ensures o.Answered? && AnswersRow(w, honest, o.answer, c.round, c.request.row)
    ensures forall j :: j in honest && j < |w.parties| ==> Own(EnvOf(w), s.round, o.answer.signatures, j)
    ensures var (s', ok) := OnAnswer(EnvOf(w), d, s, o.answer, ByParty(w, o.seals));
            && (ok <==> forall j: nat :: j < |w.parties| && j !in honest ==>
                          Readable(EnvOf(w), s.round, o.answer.signatures, j))
            && (ok ==> Taken(EnvOf(w), s, o.answer.signatures, s'))
  {
    AnswerToFirst(w, honest, events[..k], c, coins, cases, v);
    PartyAfterClaim(w, honest, events, k, c, d);
    WorldTakes(w, honest, d, s, o.answer, o.seals, c.round, c.request.row,
               OnAnswer(EnvOf(w), d, s, o.answer, ByParty(w, o.seals)));
  }

  // ----- when everybody is honest -----

  lemma HeldSigned(w: World, held: map<nat, Signature>, all: seq<Signature>, q: int)
    requires AllSigned(EnvOf(w), all, q) && forall j: nat :: j < |w.parties| ==> j in held && held[j] == all[j]
    ensures forall j: nat :: j < |w.parties| ==> j in held && SignedBy(w, j, held[j], Some(q)) == Some(true)
  {
    forall j: nat | j < |w.parties| ensures SignedBy(w, j, held[j], Some(q)) == Some(true) {
      assert EnvOf(w).signed(j, all[j], Some(q)) == Some(true);
    }
  }

  /** The party ends finalized and no longer listening, with a signature of every party that verifies for round q. */
  ghost predicate Finalizes(w: World, q: int, result: (Party, bool))
    requires |w.parties| >= 1
  {
    var (s, ok) := result;
    && ok && s.status == Finalized && !s.listening && s.expects == OfParty(|w.parties| - 1)
    && forall j: nat :: j < |w.parties| ==>
         j in s.signatures && SignedBy(w, j, s.signatures[j], Some(q)) == Some(true)
  }

  lemma WorldConcludes(w: World, d: nat, s: Party, answer: Answer, seals: map<int, Signature>, q: int,
                       result: (Party, bool))
    requires HonestWorld(w) && d < |w.parties| && Trusts(w, s.expects) && SealsOk(w, answer, seals)
    requires SignaturesOk(EnvOf(w), s.signatures) && Tested(s.round, q) && 1 <= q <= |w.parties| + 1
    requires answer.Resolved? && AllSigned(EnvOf(w), answer.signatures, q)
    requires result == OnAnswer(EnvOf(w), d, s, answer, ByParty(w, seals))
    ensures Finalizes(w, q, result)
  {
    WorldValid(w, Everybody(|w.parties|));
    SealTaken(w, d, s.expects, answer, seals);
    ResolvedConcludes(EnvOf(w), Everybody(|w.parties|), d, s, answer, ByParty(w, seals), q, result);
    HeldSigned(w, result.0.signatures, answer.signatures, q);
  }

  lemma AnswerAllSigned(w: World, answer: Answer, q: int, row: Row)
    requires AnswersRow(w, Everybody(|w.parties|), answer, q, row)
    ensures AllSigned(EnvOf(w), answer.signatures, q)
  {
  }

  /** The answer to an honest claim of round 1 is all signed. */
  lemma HonestAnswer(w: World, events: seq<Event>, c: Claim, coins: (Coins, int), cases: Cases, v: Delivery,
                     o: TrentService.Outcome)
    requires HonestWorld(w) && c in HonestRun(w, events).claims && c.round == 1
    requires FirstLetter(w, c, coins, cases, v) && o == Handle(w.desk, cases, v).1
    ensures o.Answered? && o.answer.Resolved? && SealsOk(w, o.answer, o.seals)
    ensures AllSigned(EnvOf(w), o.answer.signatures, c.round)
  {
    ClaimIsClaimedRow(w, Everybody(|w.parties|), events, c);
    AllHonestName(w, events, c);
    AnswerToFirst(w, Everybody(|w.parties|), events, c, coins, cases, v);
    AnswerAllSigned(w, o.answer, c.round, c.request.row);
  }

  /**
   * Then every party that trusts the seal holds afterwards a signature of every party that verifies for the contract
   * and the round of the claim.
   */
  lemma EveryoneFinalizes(w: World, events: seq<Event>, k: nat, c: Claim, coins: (Coins, int), cases: Cases,
                          v: Delivery, d: nat, s: Party, o: TrentService.Outcome)
    requires HonestWorld(w) && k <= |events| && c in HonestRun(w, events[..k]).claims && c.round == 1
    requires FirstLetter(w, c, coins, cases, v) && o == Handle(w.desk, cases, v).1
    requires d < |w.parties| && s == HonestRun(w, events).parties[d] && Trusts(w, s.expects)
    ensures o.Answered? && Finalizes(w, c.round, OnAnswer(EnvOf(w), d, s, o.answer, ByParty(w, o.seals)))
  {
    HonestAnswer(w, events[..k], c, coins, cases, v, o);
    PartyAfterClaim(w, Everybody(|w.parties|), events, k, c, d);
    WorldConcludes(w, d, s, o.answer, o.seals, c.round, OnAnswer(EnvOf(w), d, s, o.answer, ByParty(w, o.seals)));
  }

  // ----- aborts -----

  lemma WorldCancels(w: World, d: nat, s: Party, answer: Answer, seals: map<int, Signature>)
    requires d < |w.parties| && Trusts(w, s.expects) && SealsOk(w, answer, seals) && answer.Aborted?
    ensures OnAnswer(EnvOf(w), d, s, answer, ByParty(w, seals)) == (s.(status := Cancelled, listening := false), true)
  {
    SealTaken(w, d, s.expects, answer, seals);
  }

  /** From an honest claim of round 0 to the end, whatever the others do: every party that trusts the seal cancels. */
  lemma EveryoneCancels(w: World, honest: set<nat>, events: seq<Event>, k: nat, c: Claim, coins: (Coins, int),
                        cases: Cases, v: Delivery, d: nat)
    requires ValidWorld(w, honest) && k <= |events| && c in WorldRun(w, honest, events[..k]).claims && c.round == 0
    requires FirstLetter(w, c, coins, cases, v)
    requires d < |w.parties| && Trusts(w, WorldRun(w, honest, events).parties[d].expects)
    ensures var o := Handle(w.desk, cases, v).1;
            && o.Answered?
            && var s := WorldRun(w, honest, events).parties[d];
               OnAnswer(EnvOf(w), d, s, o.answer, ByParty(w, o.seals))
               == (s.(status := Cancelled, listening := false), true)
  {
    FirstClaimExactly(w, honest, events[..k], c, coins, cases, v);
    var o := Handle(w.desk, cases, v).1;
    WorldCancels(w, d, WorldRun(w, honest, events).parties[d], o.answer, o.seals);
  }

  // ----- after a resolved answer -----

  /** What comes from Trent is sealed by Trent. */
  ghost predicate FromTrent(w: World, v: Event) {
    v.TrentSays? ==> forall j :: j in v.seals ==> SealOk(w, v.answer, v.seals[j])
  }

  /** A party that has stopped listening and expects the signature of somebody with another identification. */
  ghost predicate Deaf(w: World, s: Party) {
    s.started && !s.listening && !Trusts(w, s.expects)
  }

  /** Nothing reaches such a party, and exactly a claim of its own makes it expect Trent's signature again. */
  lemma DeafStep(w: World, honest: set<nat>, g: Global, v: Event, d: nat)
    requires d < |g.parties| && d in honest && Deaf(w, g.parties[d]) && FromTrent(w, v)
    ensures var s := Next(EnvOf(w), honest, g, v).parties[d];
            s == if v == Timeout(d) then g.parties[d].(status := Resolving, expects := OfTrent) else g.parties[d]
  {
    if v.TrentSays? && v.i == d && d in v.seals {
      assert SealedBy(w, g.parties[d].expects, v.answer, v.seals[d]) == Some(false);
    }
  }

  lemma DeafLast(w: World, honest: set<nat>, before: seq<Event>, v: Event, events: seq<Event>, s: Party, d: nat)
    requires d < |w.parties| && d in honest && events == before + [v] && v != Timeout(d) && FromTrent(w, v)
    requires s == WorldRun(w, honest, before).parties[d] && Deaf(w, s)
    ensures WorldRun(w, honest, events).parties[d] == s
  {
    assert events[..|events| - 1] == before;
    DeafStep(w, honest, WorldRun(w, honest, before), v, d);
  }

  /** Until it claims again it stays as it is, whatever is delivered and whatever Trent says. */
  lemma {:induction false} DeafUntilClaim(w: World, honest: set<nat>, events: seq<Event>, later: seq<Event>, s: Party,
                                          d: nat)
    requires d < |w.parties| && d in honest && s == WorldRun(w, honest, events).parties[d] && Deaf(w, s)
    requires forall j :: 0 <= j < |later| ==> later[j] != Timeout(d) && FromTrent(w, later[j])
    ensures WorldRun(w, honest, events + later).parties[d] == s
    decreases |later|
  {
    if later == [] {
      assert events + later == events;
    } else {
      var before, v := later[..|later| - 1], later[|later| - 1];
      DeafUntilClaim(w, honest, events, before, s, d);
      AppendLast(events, later);
      DeafLast(w, honest, events + before, v, events + later, s, d);
    }
  }

  /**
   * After a resolved answer a sealed answer of any other kind still counts exactly when the last party has Trent's
   * identification.
   */
  lemma LaterAnswers(w: World, d: nat, s: Party, answer: Answer, seals: map<nat, Signature>)
    requires |w.parties| >= 1 && s.expects == OfParty(|w.parties| - 1)
    requires d in seals && SealOk(w, answer, seals[d]) && !answer.Resolved? && !answer.SenderDishonest?
    ensures OnAnswer(EnvOf(w), d, s, answer, seals) ==
            (if Trusts(w, s.expects) then s.(status := Cancelled, listening := false) else s, true)
    ensures var last := w.parties[|w.parties| - 1].pub;
            Trusts(w, s.expects) <==> IdentificationData(last.y) == IdentificationData(w.desk.keys.pub.y)
  {
    SealedAs(w, s.expects, answer, seals[d]);
    OtherAnswer(EnvOf(w), d, s, answer, seals, Trusts(w, s.expects));
    LastTrusted(w);
  }

  lemma LastTrusted(w: World)
    requires |w.parties| >= 1
    ensures var last := w.parties[|w.parties| - 1].pub;
            Trusts(w, OfParty(|w.parties| - 1)) <==> IdentificationData(last.y) == IdentificationData(w.desk.keys.pub.y)
  {
  }

  lemma SealedAs(w: World, x: Expected, answer: Answer, seal: Signature)
    requires SealOk(w, answer, seal)
    ensures EnvOf(w).sealed(x, answer, seal) == Some(Trusts(w, x))
  {
    assert SealedBy(w, x, answer, seal) == Some(Trusts(w, x));
  }

  lemma HearsTrent(w: World, honest: set<nat>, events: seq<Event>, v: Event, s: Party)
    requires v.TrentSays? && v.i in honest && v.i < |w.parties|
    requires s == WorldRun(w, honest, events).parties[v.i] && s.started
    ensures WorldRun(w, honest, events + [v]).parties[v.i] == OnAnswer(EnvOf(w), v.i, s, v.answer, v.seals).0
  {
    assert (events + [v])[..|events|] == events;
  }

  lemma TakenExpects(w: World, honest: set<nat>, d: nat, s: Party, answer: Answer, seals: map<nat, Signature>,
                     result: (Party, bool))
    requires ValidWorld(w, honest) && |w.parties| >= 1 && SignaturesOk(EnvOf(w), s.signatures)
    requires answer.Resolved? && |answer.signatures| == |w.parties|
    requires d in seals && EnvOf(w).sealed(s.expects, answer, seals[d]) == Some(true)
    requires result == OnAnswer(EnvOf(w), d, s, answer, seals) && result.1
    ensures result.0.expects == OfParty(|w.parties| - 1) && result.0.started == s.started
  {
    WorldValid(w, honest);
    AnswerExpects(EnvOf(w), honest, d, s, answer, seals, result);
  }

  /**
   * Who has taken a resolved answer and does not listen any more stays exactly as it is, whatever is delivered and
   * whatever else Trent says, as long as it does not claim again and the last party's identification is not Trent's.
   */
  lemma DeafAfterResolved(w: World, honest: set<nat>, events: seq<Event>, says: Event, s: Party, s': Party,
                          later: seq<Event>)
    requires ValidWorld(w, honest) && |w.parties| >= 1 && !Trusts(w, OfParty(|w.parties| - 1))
    requires TakesAnswer(EnvOf(w), says, s, s') && says.i in honest && says.i < |w.parties|
    requires s == WorldRun(w, honest, events).parties[says.i] && s.started
    requires forall j :: 0 <= j < |later| ==> later[j] != Timeout(says.i) && FromTrent(w, later[j])
    ensures WorldRun(w, honest, events + [says]).parties[says.i] == s'
    ensures WorldRun(w, honest, events + [says] + later).parties[says.i] == s'
  {
    RunSignaturesOk(w, honest, events, says.i);
    TakenExpects(w, honest, says.i, s, says.answer, says.seals, (s', true));
    HearsTrent(w, honest, events, says, s);
    DeafUntilClaim(w, honest, events + [says], later, s', says.i);
  }

  /** No solver ever resolves a claim of round 2 or later, whatever Trent was asked before. */
  lemma LateLettersFail(d: Desk, deliveries: seq<Delivery>, v: Delivery)
    requires v.letter.round >= 2
    ensures var o := Handle(d, TrentService.Run(d, deliveries).0, v).1;
            !(o.Answered? && o.answer.Resolved?)
  {
    TrentService.RunKeeps(d, deliveries);
    var before := CaseFor(TrentService.Run(d, deliveries).0, v.letter.contract);
    ResolvedExactly(d.keys, before.n, before.state, CallOf(v));
  }

  /**
   * When an honest party has sent its clear signatures, no claim of another honest party is an abort, but with two or
   * more parties no such claim is ever resolved either, whatever Trent was asked before.
   */
  lemma NoHelpAfterClear(w: World, honest: set<nat>, events: seq<Event>, j: nat, c: Claim, deliveries: seq<Delivery>,
                         v: Delivery)
    requires ValidWorld(w, honest) && |w.parties| >= 2 && c in WorldRun(w, honest, events).claims
    requires ClearSignatures(EnvOf(w), j) in WorldRun(w, honest, events).net
    requires v.letter.round == c.round
    ensures c.request.Promises?
    ensures var o := Handle(w.desk, TrentService.Run(w.desk, deliveries).0, v).1;
            !(o.Answered? && o.answer.Resolved?)
  {
    WorldValid(w, honest);
    NoAbortAfterClear(EnvOf(w), honest, events, j, c);
    LateLettersFail(w.desk, deliveries, v);
  }
}
