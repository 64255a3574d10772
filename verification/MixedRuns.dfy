/** What an entry of a dishonest party can make of an honest claim: the runs behind the conditions of EndToEnd. */
module MixedRuns {
  import opened Wrappers
  import opened NumberTheory
  import opened ModPower
  import opened Bytes
  import opened Identity
  import opened Sigma
  import opened Pcs
  import opened SigmaSigner
  import opened Trent
  import opened TrentSolver
  import opened TrentService
  import opened SignStep
  import opened SignProtocol
  import opened Answers
  import opened EndToEnd
  import opened Worlds

  // ----- a claim with somebody else's entry -----

  /** Of two parties the second one is honest; the first one sends it entry o as its promise of round 1, and no more. */
  function EntryRun(o: Or): seq<Event> {
    [Begin(1), Deliver(1, Message(0, 1, map[1 := Promise(o)])), Timeout(1)]
  }

  function EntryRow(e: Env, o: Or): Row {
    [Some(o), Some(e.promise(1, 1, 1))]
  }

  function EntryClaim(e: Env, o: Or): Claim {
    Claim(1, 1, Request.Promises(EntryRow(e, o)))
  }

  /** The second party in round q, with the entry in its first row. */
  function WithEntry(e: Env, o: Or): Party {
    FirstRow(e, 1).(round := 2,
                    rows := map[(1, 1) := e.promise(1, 1, 1), (1, 0) := o, (2, 1) := e.promise(1, 2, 1)])
  }

  ghost predicate TwoGoOn(e: Env) {
    e.n == 2 && !e.refuse(1, 1) && !e.refuse(1, 2)
  }

  lemma EntryStored(e: Env, o: Or)
    requires TwoGoOn(e) && e.accepts(1, o) == Some(true)
    ensures Notify(e, 1, FirstRow(e, 1), Message(0, 1, map[1 := Promise(o)])).party == WithEntry(e, o)
  {
    var s, m := FirstRow(e, 1), Message(0, 1, map[1 := Promise(o)]);
    var s' := Store(e, 1, s, m).0;
    assert s' == s.(rows := s.rows[(1, 0) := o]);
    assert ClaimFormed(e, s');
    var first := SendMessage(e, 1, s'.(round := 2));
    assert first.party.rows == WithEntry(e, o).rows;
    assert first.party == WithEntry(e, o);
    assert (2, 0) !in WithEntry(e, o).rows && !ClaimFormed(e, first.party);
    assert Advance(e, 1, first.party) == Outcome(first.party, [], [], true);
  }

  lemma EntryGivenUp(e: Env, o: Or)
    requires TwoGoOn(e)
    ensures SendClaim(e, 1, WithEntry(e, o)) ==
            Outcome(WithEntry(e, o).(status := Resolving, listening := false, expects := OfTrent), [],
                    [EntryClaim(e, o)], true)
  {
    assert RowOf(e, WithEntry(e, o).rows, 1) == EntryRow(e, o);
  }

  /** The second party claims with the entry, and waits for Trent with no signature at all. */
  lemma EntryClaimed(e: Env, o: Or)
    requires TwoGoOn(e) && e.accepts(1, o) == Some(true)
    ensures var g := SignProtocol.Run(e, {1}, EntryRun(o));
            && EntryClaim(e, o) in g.claims
            && g.parties[1] == WithEntry(e, o).(status := Resolving, listening := false, expects := OfTrent)
  {
    var events := EntryRun(o);
    var none: seq<Event> := [];
    assert events[..2][..1] == [Begin(1)] && [Begin(1)][..0] == none;
    var g1 := SignProtocol.Run(e, {1}, [Begin(1)]);
    var g2 := SignProtocol.Run(e, {1}, events[..2]);
    StartsWithRow(e, 1);
    assert g1.parties[1] == FirstRow(e, 1);
    EntryStored(e, o);
    assert g2.parties[1] == WithEntry(e, o);
    EntryGivenUp(e, o);
  }

  // ----- what Trent and the claimer make of it -----

  /** Two parties of which the second one is honest and goes on to round 2, and an entry that verifies for round 1. */
  ghost predicate EntryWorld(w: World, o: Or) {
    && ValidWorld(w, {1}) && |w.parties| == 2 && TwoGoOn(EnvOf(w))
    && OrVerifies(w.desk.hash, o, RoundText(w.contract, 1)) == Some(true)
  }

  /** The claim with the entry reaches a Trent who has not heard of the contract. */
  ghost predicate EntryLetter(w: World, o: Or, coins: (Coins, int), cases: Cases, v: Delivery) {
    FirstLetter(w, EntryClaim(EnvOf(w), o), coins, cases, v)
  }

  lemma EntryNames(w: World, o: Or)
    requires |w.parties| == 2
    ensures OthersName(w, {1}, EntryRow(EnvOf(w), o)) <==> Names(w, Some(o))
  {
    assert EntryRow(EnvOf(w), o)[0] == Some(o);
  }

  lemma EntryInRun(w: World, o: Or, s: Party)
    requires EntryWorld(w, o) && s == WorldRun(w, {1}, EntryRun(o)).parties[1]
    ensures EntryClaim(EnvOf(w), o) in WorldRun(w, {1}, EntryRun(o)).claims
    ensures s.round == 2 && s.expects == OfTrent && s.status == Resolving && s.signatures == map[]
  {
    EntryClaimed(EnvOf(w), o);
  }

  /** Nothing comes of the claim exactly if the entry names nobody that Trent can decrypt. */
  lemma EntryDecides(w: World, o: Or, coins: (Coins, int), cases: Cases, v: Delivery)
    requires EntryWorld(w, o) && EntryLetter(w, o, coins, cases, v)
    ensures var (cases', r) := Handle(w.desk, cases, v);
            if Names(w, Some(o)) then r.Answered? && r.answer.Resolved?
            else cases' == cases && (r.Silent? || r.Failed?)
  {
    EntryInRun(w, o, WorldRun(w, {1}, EntryRun(o)).parties[1]);
    EntryNames(w, o);
    FirstClaimExactly(w, {1}, EntryRun(o), EntryClaim(EnvOf(w), o), coins, cases, v);
  }

  lemma OnlyFirstReadable(e: Env, n: nat, round: int, signatures: seq<Signature>)
    requires n == 2 == |signatures|
    ensures (forall j: nat :: j < n && j !in {1} ==> Readable(e, round, signatures, j))
            <==> Readable(e, round, signatures, 0)
  {
    assert 0 !in {1};
  }

  /** What comes of an answer to the claim, as far as the entry is not looked into. */
  lemma EntryAnswered(w: World, o: Or, coins: (Coins, int), cases: Cases, v: Delivery, s: Party,
                      r: TrentService.Outcome)
    requires EntryWorld(w, o) && Names(w, Some(o)) && EntryLetter(w, o, coins, cases, v)
    requires r == Handle(w.desk, cases, v).1 && s == WorldRun(w, {1}, EntryRun(o)).parties[1]
    ensures r.Answered? && AnswersRow(w, {1}, r.answer, 1, EntryRow(EnvOf(w), o))
    ensures Own(EnvOf(w), s.round, r.answer.signatures, 1)
    ensures var (s', ok) := OnAnswer(EnvOf(w), 1, s, r.answer, ByParty(w, r.seals));
            && (ok <==> Readable(EnvOf(w), s.round, r.answer.signatures, 0))
            && (ok ==> Taken(EnvOf(w), s, r.answer.signatures, s'))
  {
    var events := EntryRun(o);
    EntryInRun(w, o, s);
    EntryNames(w, o);
    assert events[..3] == events;
    HonestOutcome(w, {1}, events, 3, EntryClaim(EnvOf(w), o), coins, cases, v, 1, s, r);
    OnlyFirstReadable(EnvOf(w), |w.parties|, s.round, r.answer.signatures);
  }

  // ----- an entry around nobody's identification -----

  /** A signature of the first party for the second one around the number x instead of its identification. */
  function AroundNumber(w: World, x: int, coins: Coins): Option<Or>
    requires |w.parties| == 2
  {
    var t := w.desk.keys.pub;
    var u :- ModPow(t.g, coins.k, t.p);
    var v :- ModPow(t.y, coins.k, t.p);
    CreatePcs(w.desk.hash, w.parties[0], t, w.parties[1].pub, RoundText(w.contract, 1), ResEncrypt(u, v * x, x),
              coins.k, coins)
  }

  lemma TwoClausesUnnamed(t: KeyPair, first: And, second: And, me: Key, receiver: Key, x: int)
    requires ClauseShape(first, me, first.res) && ClauseShape(second, receiver, first.res)
    requires IdentificationData(me.y).Some? && IdentificationData(receiver.y).Some?
    requires Decryption(t, first.res) == Some(x)
    requires x != Signed(IdentificationData(me.y).value) && x != Signed(IdentificationData(receiver.y).value)
    ensures VerifiesRes(t, [first, second], false) == Some(false)
  {
    assert [first, second][1..] == [second] && [second][1..] == [];
    assert VerifiesRes(t, [], false) == Some(false);
    assert VerifiesRes(t, [second], false) == Some(false);
  }

  lemma AroundNumberVerifies(w: World, x: int, coins: Coins)
    requires ValidWorld(w, {0, 1}) && |w.parties| == 2 && 0 < x < w.desk.keys.pub.p
    requires forall i :: 0 <= i < 2 ==> x != Signed(IdentificationData(w.parties[i].pub.y).value)
    ensures var o := AroundNumber(w, x, coins);
            && o.Some? && OrVerifies(w.desk.hash, o.value, RoundText(w.contract, 1)) == Some(true)
            && VerifiesRes(w.desk.keys, o.value.ands, false) == Some(false)
  {
    var t, me, to, m := w.desk.keys, w.parties[0], w.parties[1].pub, RoundText(w.contract, 1);
    KeyUnits(t.pub);
    var res := ResEncrypt(Exp(t.pub.g, coins.k, t.pub.p), Exp(t.pub.y, coins.k, t.pub.p) * x, x);
    PcsComplete(w.desk.hash, me, t.pub, to, m, res, coins.k, coins);
    PcsShape(w.desk.hash, me, t.pub, to, m, res, coins.k, coins);
    DecryptionCorrect(t, coins.k, x);
    DivModUnique(x, 0, x, t.pub.p);
    var ands := AroundNumber(w, x, coins).value.ands;
    TwoClausesUnnamed(t, ands[0], ands[1], me.pub, to, x);
    assert ands == [ands[0], ands[1]];
  }

  /**
   * The second party takes such an entry for a promise and claims with it; then Trent does not take its claim, although
   * it is honest and of round 1.
   */
  lemma UnnamedRefused(w: World, x: int, entry: Coins, coins: (Coins, int), cases: Cases, v: Delivery)
    requires ValidWorld(w, {0, 1}) && |w.parties| == 2 && TwoGoOn(EnvOf(w)) && 0 < x < w.desk.keys.pub.p
    requires forall i :: 0 <= i < 2 ==> x != Signed(IdentificationData(w.parties[i].pub.y).value)
    requires AroundNumber(w, x, entry).Some? ==> EntryLetter(w, AroundNumber(w, x, entry).value, coins, cases, v)
    ensures var o := AroundNumber(w, x, entry);
            && o.Some?
            && EntryClaim(EnvOf(w), o.value) in WorldRun(w, {1}, EntryRun(o.value)).claims
            && var (cases', r) := Handle(w.desk, cases, v);
               cases' == cases && (r.Silent? || r.Failed?)
  {
    AroundNumberVerifies(w, x, entry);
    var o := AroundNumber(w, x, entry).value;
    FewerHonest(w);
    EntryInRun(w, o, WorldRun(w, {1}, EntryRun(o)).parties[1]);
    EntryDecides(w, o, coins, cases, v);
  }

  lemma FewerHonest(w: World)
    requires ValidWorld(w, {0, 1})
    ensures ValidWorld(w, {1})
  {
  }

  // ----- an entry that is somebody's own promise, sent back -----

  /** The second party's own promise of round 1 for the first one. */
  function SentBack(w: World): Or
    requires |w.parties| == 2
  {
    EnvOf(w).promise(1, 1, 0)
  }

  lemma SentBackVerifies(w: World)
    requires ValidWorld(w, {1}) && |w.parties| == 2
    ensures OrVerifies(w.desk.hash, SentBack(w), RoundText(w.contract, 1)) == Some(true) && Names(w, Some(SentBack(w)))
    ensures SentBack(w).ands != []
            && SentBack(w).ands[0].res.m == Signed(IdentificationData(w.parties[1].pub.y).value)
  {
    HonestSignaturesAccepted(w, {1}, 1, 0);
    HonestEntryNames(w, {1}, 1, 1, 0);
    var t, me, to, m := w.desk.keys.pub, w.parties[1], w.parties[0].pub, RoundText(w.contract, 1);
    var res := Encryption(t, IdentificationData(me.pub.y).value, w.coins(1, 1, 0).k).value;
    PcsShape(w.desk.hash, me, t, to, m, res, w.coins(1, 1, 0).k, w.coins(1, 1, 0));
  }

  /** Sent back, it does not pass as the first party's. */
  lemma SentBackNotOwn(w: World, signatures: seq<Signature>)
    requires ValidWorld(w, {1}) && |w.parties| == 2 == |signatures|
    requires IdentificationData(w.parties[0].pub.y) != IdentificationData(w.parties[1].pub.y)
    requires signatures[0].pcs == SentBack(w) && signatures[0].trentK == w.desk.keys.pub
    ensures SignedInThreeRounds(EnvOf(w), 0, signatures[0], 2) == Some(false)
  {
    SentBackVerifies(w);
    forall q: int ensures EnvOf(w).signed(0, signatures[0], Some(q)) == Some(false) {
      OtherSignerRefused(w.desk.hash, w.parties[1].pub.y, w.parties[0].pub, Some(w.desk.keys.pub),
                         RoundText(w.contract, q), signatures[0]);
    }
  }

  lemma FirstMissingTaken(e: Env, s: Party, signatures: seq<Signature>, s': Party)
    requires |signatures| == e.n == 2 && s.signatures == map[] && Taken(e, s, signatures, s')
    requires !Own(e, s.round, signatures, 0) && Own(e, s.round, signatures, 1)
    ensures s'.signatures == map[1 := signatures[1]] && s'.status == s.status
  {
    OwnsAll(e, s.round, signatures, 1);
    OwnsAll(e, s.round, signatures, 2);
    assert 0 !in Held(e, s.round, map[], signatures, 1) && 0 !in Held(e, s.round, map[], signatures, 2);
  }

  /**
   * The second party takes its own promise, sent back, for the first one's. Its claim is let in and resolved, it takes
   * the answer, and yet it is not finalized: the first party's signature is missing.
   */
  lemma SentBackUnfinished(w: World, coins: (Coins, int), cases: Cases, v: Delivery, s: Party,
                           r: TrentService.Outcome)
    requires ValidWorld(w, {1}) && |w.parties| == 2 && TwoGoOn(EnvOf(w))
    requires IdentificationData(w.parties[0].pub.y) != IdentificationData(w.parties[1].pub.y)
    requires EntryLetter(w, SentBack(w), coins, cases, v) && r == Handle(w.desk, cases, v).1
    requires s == WorldRun(w, {1}, EntryRun(SentBack(w))).parties[1]
    ensures EntryClaim(EnvOf(w), SentBack(w)) in WorldRun(w, {1}, EntryRun(SentBack(w))).claims
    ensures r.Answered? && r.answer.Resolved? && |r.answer.signatures| == 2
    ensures var (s', ok) := OnAnswer(EnvOf(w), 1, s, r.answer, ByParty(w, r.seals));
            ok && s'.status == Resolving && s'.signatures == map[1 := r.answer.signatures[1]]
  {
    SentBackVerifies(w);
    EntryInRun(w, SentBack(w), s);
    EntryAnswered(w, SentBack(w), coins, cases, v, s, r);
    SentBackNotOwn(w, r.answer.signatures);
    FirstMissingTaken(EnvOf(w), s, r.answer.signatures, OnAnswer(EnvOf(w), 1, s, r.answer, ByParty(w, r.seals)).0);
  }

  /** There is such a world, and such a letter. */
  lemma SentBackMet() returns (w: World, v: Delivery)
    ensures ValidWorld(w, {1}) && |w.parties| == 2 && TwoGoOn(EnvOf(w))
    ensures IdentificationData(w.parties[0].pub.y) != IdentificationData(w.parties[1].pub.y)
    ensures EntryLetter(w, SentBack(w), (NO_COINS, 0), map[], v)
  {
    PowPositive(10, IDENTIFICATION_LENGTH - 2);
    w := WorldExists(2, (i, q) => false);
    assert ValidWorld(w, {1});
    SenderAdmitted(w, {1}, EntryClaim(EnvOf(w), SentBack(w)), (NO_COINS, 0));
    var l := LetterOf(w, EntryClaim(EnvOf(w), SentBack(w)), (NO_COINS, 0)).value;
    v := Delivery(l, claims => None, k => (0, a => 0), k => (NO_COINS, 0));
  }
}
