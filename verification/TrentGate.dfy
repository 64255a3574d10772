/** What the guard on the round in front of Trent's solvers means for the signatures that Trent gives out. */
module TrentGate {
  import opened Wrappers
  import opened NumberTheory
  import opened ModPower
  import opened Sigma
  import opened Pcs
  import opened SigmaSigner
  import opened Trent
  import opened TrentSolver
  import opened TrentService
  import opened SignStep
  import opened SignProtocol
  import opened EndToEnd

  // ----- when an answer is resolved -----

  ghost predicate ResolvedAnswer(o: TrentService.Outcome) {
    o.Answered? && o.answer.Resolved?
  }

  /**
   * A request is answered as resolved exactly when it is let in, nothing is stored about the contract, its round is at
   * most 1, the first resolution needs a positive round, and the signatures and all seals can be made.
   */
  lemma AnsweredExactly(d: Desk, cases: Cases, v: Delivery)
    requires SolversOk(cases)
    ensures var l, c := v.letter, CaseFor(cases, v.letter.contract);
            var token := TokenFor(d.keys, c.n, CallOf(v));
            ResolvedAnswer(Handle(d, cases, v).1) <==>
              && Admitted(d, l) == Some(true)
              && c.state.claims == [] && l.round <= 1 && (l.round > 0 || !c.state.optimistic)
              && token.Some? && Seals(d, l.contract.parties, d.told(Resolved(token.value)), v.coins).Some?
  {
    var c := CaseFor(cases, v.letter.contract);
    ResolvedExactly(d.keys, c.n, c.state, CallOf(v));
    if ResolvedFor(d, c, v) { ResolvedIsToken(d.keys, c.n, c.state, CallOf(v)); }
  }

  /** What goes out is the token of the request. */
  lemma AnsweredWithToken(d: Desk, cases: Cases, v: Delivery)
    requires ResolvedAnswer(Handle(d, cases, v).1)
    ensures TokenFor(d.keys, CaseFor(cases, v.letter.contract).n, CallOf(v))
            == Some(Handle(d, cases, v).1.answer.signatures)
  {
    var c := CaseFor(cases, v.letter.contract);
    ResolvedIsToken(d.keys, c.n, c.state, CallOf(v));
  }

  ghost predicate ResolvedFor(d: Desk, c: Case, v: Delivery) {
    var answer := Answering(d, c, v).1;
    answer.Some? && answer.value.Resolved?
  }

  // ----- when the signatures of an answer are genuine -----

  /**
   * The promise verifies on the contract and the round and names somebody whose identification Trent decrypts; the
   * signature around it is under Trent's own key.
   */
  ghost predicate Checked(d: Desk, l: Letter, sig: Signature) {
    && OrVerifies(d.hash, sig.pcs, RoundText(l.contract.text, l.round)) == Some(true)
    && VerifiesRes(d.keys, sig.pcs.ands, false) == Some(true)
    && sig.trentK == d.keys.pub
  }

  /** If delivery v is answered as resolved after the others, there is a checked signature for every party. */
  ghost predicate GenuineAfter(d: Desk, deliveries: seq<Delivery>, v: Delivery) {
    var cases := TrentService.Run(d, deliveries).0;
    var o := Handle(d, cases, v).1;
    ResolvedAnswer(o) ==>
      && |o.answer.signatures| == CaseFor(cases, v.letter.contract).n
      && forall k :: 0 <= k < |o.answer.signatures| ==> Checked(d, v.letter, o.answer.signatures[k])
  }

  lemma PositiveRoundsGenuine(d: Desk, deliveries: seq<Delivery>, v: Delivery)
    requires v.letter.round >= 1
    ensures GenuineAfter(d, deliveries, v)
  {
    var cases := TrentService.Run(d, deliveries).0;
    var o := Handle(d, cases, v).1;
    if ResolvedAnswer(o) {
      var c := CaseFor(cases, v.letter.contract);
      ResolvedIsToken(d.keys, c.n, c.state, CallOf(v));
      forall k | 0 <= k < |o.answer.signatures| ensures Checked(d, v.letter, o.answer.signatures[k]) {
        ResolvedIsGenuine(d, cases, v, k);
      }
    }
  }

  // ----- rounds that are not positive -----

  const NO_PROOF := Schnorr(Masks(0, None), 0, 0)
  const NO_CIPHER := ResEncrypt(1, 1, 1)

  /** An entry that is no signature of anybody on anything. */
  function Unproven(t: Key): Or {
    Or(0, [And(map[NO_PROOF := t], NO_CIPHER, [NO_PROOF])])
  }

  lemma NoProofFails(t: Key)
    requires t.p >= 2
    ensures Verifies(NO_PROOF, t, NO_CIPHER) == Some(false)
  {
    assert Pow(t.g, 0) == 1 && Pow(t.y, 0) == 1;
    DivModUnique(1, 0, 1, t.p);
    DivModUnique(0, 0, 0, t.p);
  }

  lemma UnprovenFails(hash: Hash, t: Key, m: string)
    requires t.p >= 2
    ensures OrVerifies(hash, Unproven(t), m) == Some(false)
  {
    NoProofFails(t);
    ClauseFails(And(map[NO_PROOF := t], NO_CIPHER, [NO_PROOF]));
  }

  lemma ClauseFails(clause: And)
    requires clause.responses != [] && clause.responses[0] in clause.rK
    requires Verifies(clause.responses[0], clause.rK[clause.responses[0]], clause.res) == Some(false)
    ensures AndsVerify([clause]) == Some(false)
  {
  }

  /** The promises of all parties of the world for the first one in round 1. */
  function HonestEntries(w: World): Row
    requires |w.parties| >= 1
  {
    seq(|w.parties|, j requires 0 <= j < |w.parties| => PromiseOf(w, j, 1, 0))
  }

  function UnprovenEntries(w: World): Row {
    seq(|w.parties|, j => Some(Unproven(w.desk.keys.pub)))
  }

  /** A letter of the first party about the contract of the world. */
  function LetterWith(w: World, round: int, row: Row): Option<Letter>
    requires |w.parties| >= 1
  {
    LetterOf(w, Claim(0, round, Request.Promises(row)), (NO_COINS, 0))
  }

  function DeliveryOf(l: Letter): Delivery {
    Delivery(l, claims => None, k => (0, a => 0), k => (NO_COINS, 0))
  }

  lemma HonestEntriesHonest(w: World)
    requires HonestWorld(w) && |w.parties| >= 1
    ensures HonestRow(w.desk.hash, w.parties, w.desk.keys.pub, w.parties[0].pub, RoundText(w.contract, 1),
                      HonestEntries(w))
  {
    var row := HonestEntries(w);
    forall j: nat | j < |row|
      ensures row[j].Some? && HonestEntry(w.desk.hash, w.parties[j], w.desk.keys.pub, w.parties[0].pub,
                                          RoundText(w.contract, 1), row[j].value)
    {
      HonestSignaturesAccepted(w, Everybody(|w.parties|), j, 0);
      assert PromiseOf(w, j, 1, 0) == row[j];
    }
  }

  lemma LetterLetIn(w: World, row: Row, v: Delivery)
    requires HonestWorld(w) && |w.parties| >= 1 && Some(v.letter) == LetterWith(w, 1, row)
    requires ClaimAccepted(w.desk.hash, w.desk.keys, RoundText(w.contract, 1), row) == Some(true)
    ensures Admitted(w.desk, v.letter) == Some(true)
  {
    SenderAdmitted(w, Everybody(|w.parties|), Claim(0, 1, Request.Promises(row)), (NO_COINS, 0));
    LetIn(w.desk, v.letter);
  }

  lemma LetIn(d: Desk, l: Letter)
    requires RowAccepted(d, l) == Some(true) && SenderSigned(d, l) == Some(true)
    ensures Admitted(d, l) == Some(true)
  {
  }

  /** The first request of all, of round 1, ends optimism and is answered if there are signatures to answer with. */
  lemma FirstOfRoundOne(d: Desk, v: Delivery)
    requires Admitted(d, v.letter) == Some(true) && v.letter.round == 1
    ensures var n := |v.letter.contract.parties|;
            var token := TokenFor(d.keys, n, CallOf(v));
            Handle(d, map[], v) == (map[v.letter.contract.text := Case(n, FRESH.(optimistic := false))],
                                    Send(d, v, if token.Some? then Some(Resolved(token.value)) else None))
  {
    EmptyLoops(|v.letter.contract.parties|, FRESH, CallOf(v));
  }

  lemma FirstRun(d: Desk, v: Delivery)
    ensures TrentService.Run(d, [v]).0 == Handle(d, map[], v).0
  {
    assert [v][..0] == [] && TrentService.Run(d, []) == (map[], []);
  }

  /** The honest letter of round 1 leaves a solver that has resolved. */
  lemma HonestLetterResolved(w: World)
    requires HonestWorld(w) && |w.parties| >= 1
    ensures var l := LetterWith(w, 1, HonestEntries(w));
            && l.Some?
            && TrentService.Run(w.desk, [DeliveryOf(l.value)]).0
               == map[w.contract := Case(|w.parties|, FRESH.(optimistic := false))]
  {
    var row, v := HonestEntries(w), HonestDelivery(w);
    HonestEntriesHonest(w);
    HonestRowAccepted(w.desk.hash, w.parties, w.desk.keys, w.parties[0].pub, RoundText(w.contract, 1), row);
    LetterLetIn(w, row, v);
    FirstOfRoundOne(w.desk, v);
    FirstRun(w.desk, v);
  }

  ghost function HonestDelivery(w: World): (v: Delivery)
    requires HonestWorld(w) && |w.parties| >= 1
    ensures Some(v.letter) == LetterWith(w, 1, HonestEntries(w)) && v == DeliveryOf(v.letter)
    ensures SenderSigned(w.desk, v.letter) == Some(true)
  {
    SenderAdmitted(w, Everybody(|w.parties|), Claim(0, 1, Request.Promises(HonestEntries(w))), (NO_COINS, 0));
    DeliveryOf(LetterWith(w, 1, HonestEntries(w)).value)
  }

  ghost function UnprovenDelivery(w: World, r: int): (v: Delivery)
    requires HonestWorld(w) && |w.parties| >= 1
    ensures Some(v.letter) == LetterWith(w, r, UnprovenEntries(w)) && v == DeliveryOf(v.letter)
    ensures SenderSigned(w.desk, v.letter) == Some(true)
  {
    SenderAdmitted(w, Everybody(|w.parties|), Claim(0, r, Request.Promises(UnprovenEntries(w))), (NO_COINS, 0));
    DeliveryOf(LetterWith(w, r, UnprovenEntries(w)).value)
  }

  lemma UnprovenToken(w: World, r: int)
    requires HonestWorld(w) && |w.parties| >= 1
    ensures var token := TokenFor(w.desk.keys, |w.parties|, CallOf(UnprovenDelivery(w, r)));
            token.Some? && forall k :: 0 <= k < |w.parties| ==> token.value[k].pcs == Unproven(w.desk.keys.pub)
  {
    var t, row, draws := w.desk.keys, UnprovenEntries(w), UnprovenDelivery(w, r).draws;
    KeyUnits(t.pub);
    forall k: nat | k < |w.parties|
      ensures TokenSignature(t, row, k, draws).Some?
              && TokenSignature(t, row, k, draws).value.pcs == Unproven(t.pub)
    {
    }
  }

  lemma UnprovenSealed(w: World, r: int)
    requires HonestWorld(w) && |w.parties| >= 1 && r <= 0
    ensures var v := UnprovenDelivery(w, r);
            var token := TokenFor(w.desk.keys, |w.parties|, CallOf(v));
            && Admitted(w.desk, v.letter) == Some(true) && token.Some?
            && Seals(w.desk, v.letter.contract.parties, w.desk.told(Resolved(token.value)), v.coins).Some?
  {
    var v := UnprovenDelivery(w, r);
    LetIn(w.desk, v.letter);
    UnprovenToken(w, r);
    AnySealed(w, v, Resolved(TokenFor(w.desk.keys, |w.parties|, CallOf(v)).value));
  }

  /** A letter about the contract of the world can be answered with anything. */
  lemma AnySealed(w: World, v: Delivery, answer: Answer)
    requires HonestWorld(w) && v.letter.contract == ContractOf(w)
    ensures Seals(w.desk, v.letter.contract.parties, w.desk.told(answer), v.coins).Some?
  {
    SealsMade(w, Everybody(|w.parties|), answer, v.coins);
  }

  /** After the honest one, the same party's letter of a round below 1 is answered with entries nobody ever signed. */
  lemma UnprovenAnswered(w: World, r: int)
    requires HonestWorld(w) && |w.parties| >= 1 && r <= 0
    ensures var cases := TrentService.Run(w.desk, [HonestDelivery(w)]).0;
            var o := Handle(w.desk, cases, UnprovenDelivery(w, r)).1;
            ResolvedAnswer(o) && |o.answer.signatures| == |w.parties|
            && o.answer.signatures[0].pcs == Unproven(w.desk.keys.pub)
  {
    var v := UnprovenDelivery(w, r);
    var cases := TrentService.Run(w.desk, [HonestDelivery(w)]).0;
    HonestLetterResolved(w);
    UnprovenSealed(w, r);
    UnprovenToken(w, r);
    AnsweredExactly(w.desk, cases, v);
    AnsweredWithToken(w.desk, cases, v);
  }

  /**
   * Trent's resolved answers hold only signatures whose promises it has checked, whatever it was asked before, exactly
   * for requests of rounds from 1 on.
   */
  lemma GenuineExactly(w: World, r: int)
    requires HonestWorld(w) && |w.parties| >= 1
    ensures (forall deliveries, v: Delivery :: v.letter.round == r ==> GenuineAfter(w.desk, deliveries, v)) <==> r >= 1
  {
    if r >= 1 {
      forall deliveries, v: Delivery | v.letter.round == r ensures GenuineAfter(w.desk, deliveries, v) {
        PositiveRoundsGenuine(w.desk, deliveries, v);
      }
    } else {
      UnprovenAnswered(w, r);
      UnprovenFails(w.desk.hash, w.desk.keys.pub, RoundText(w.contract, r));
      assert !GenuineAfter(w.desk, [HonestDelivery(w)], UnprovenDelivery(w, r));
    }
  }

  // ----- rows that are too short -----

  lemma ShortRowThrows(w: World, row: Row, v: Delivery)
    requires HonestWorld(w) && |row| < |w.parties|
    requires ClaimAccepted(w.desk.hash, w.desk.keys, RoundText(w.contract, 1), row) == Some(true)
    requires Some(v.letter) == LetterWith(w, 1, row)
    ensures Handle(w.desk, map[], v) == (map[w.contract := Case(|w.parties|, FRESH.(optimistic := false))], Failed)
  {
    LetterLetIn(w, row, v);
    FirstOfRoundOne(w.desk, v);
    TokenExactly(w.desk.keys, row, |w.parties|, v.draws);
  }

  /**
   * A claim of round 1 with fewer entries than there are parties is let in if those verify; when it comes first it is
   * not answered, and yet no request about the contract is ever answered as aborted after it.
   */
  lemma ShortRowEndsAborts(w: World, row: Row, v: Delivery, later: seq<Delivery>, i: nat)
    requires HonestWorld(w) && |row| < |w.parties|
    requires ClaimAccepted(w.desk.hash, w.desk.keys, RoundText(w.contract, 1), row) == Some(true)
    requires Some(v.letter) == LetterWith(w, 1, row)
    requires i < |TrentService.Run(w.desk, [v] + later).1|
    ensures Handle(w.desk, map[], v).1 == Failed
    ensures var o := TrentService.Run(w.desk, [v] + later).1[i];
            o.Answered? && o.id == w.contract ==> o.answer.Resolved?
  {
    ShortRowThrows(w, row, v);
    FirstRun(w.desk, v);
    assert ([v] + later)[..1] == [v];
    PessimisticForGood(w.desk, [v] + later, 1, w.contract, i);
  }
}
