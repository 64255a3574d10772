/** Worlds that meet the assumptions under which the protocol is proved. */
module Worlds {
  import opened Wrappers
  import opened NumberTheory
  import opened ModPower
  import opened Bytes
  import opened Identity
  import opened Sigma
  import opened Pcs
  import opened SigmaSigner
  import opened Trent
  import opened TrentSolver
  import opened TrentService
  import opened SignStep
  import opened SignProtocol
  import opened EndToEnd

  // ----- identifications -----

  /** A number of exactly as many digits as an identification takes is its own identification. */
  lemma IdentifiedByAll(y: nat, k: nat)
    requires k + 1 == IDENTIFICATION_LENGTH && Pow(10, k) <= y < Pow(10, k + 1)
    ensures |Decimal(y)| == IDENTIFICATION_LENGTH && IdentificationData(y).Some?
    ensures forall i :: 0 <= i < IDENTIFICATION_LENGTH ==> IdentificationData(y).value[i] == Decimal(y)[i] as int
    ensures Signed(IdentificationData(y).value) < Pow(256, IDENTIFICATION_LENGTH)
  {
    DecimalLong(y, k);
    DecimalShort(y, k + 1);
    IdentificationPositive(y);
    UnsignedBound(IdentificationData(y).value);
  }

  lemma IdentificationsDiffer(y: nat, y': nat, k: nat)
    requires k + 1 == IDENTIFICATION_LENGTH && Pow(10, k) <= y < Pow(10, k + 1) && Pow(10, k) <= y' < Pow(10, k + 1)
    requires y != y'
    ensures IdentificationData(y) != IdentificationData(y')
  {
    IdentifiedByAll(y, k);
    IdentifiedByAll(y', k);
    if IdentificationData(y) == IdentificationData(y') {
      assert Decimal(y) == Decimal(y');
      DecimalInjective(y, y');
    }
  }

  // ----- a world of any size -----

  /** The pair of the secret exponent 1. */
  function PairOf(p: int, y: int): KeyPair {
    KeyPair(Key(p, y, y), 1)
  }

  lemma PairWellFormed(p: int, y: int)
    requires Prime(p) && 0 < y < p
    ensures WellFormedPair(PairOf(p, y))
  {
    DivModUnique(y, 0, y, p);
    PrimeUnit(y, p);
    ExpOne(y, p);
  }

  function Pairs(p: int, first: nat, n: nat): (pairs: seq<KeyPair>)
    ensures |pairs| == n && forall i :: 0 <= i < n ==> pairs[i] == PairOf(p, first + i)
  {
    seq(n, i => PairOf(p, first + i))
  }

  /** Trent has the first number as its public key, and the parties have the ones after it. */
  function WorldOf(p: int, first: nat, n: nat, refuse: (nat, int) -> bool): World {
    World(Desk((m, a) => 0, PairOf(p, first), request => "", answer => ""), "", Pairs(p, first + 1, n),
          (i, q, k) => NO_COINS, (i, k) => (NO_COINS, 0), refuse)
  }

  /** All identifications are different. */
  ghost predicate Distinct(w: World) {
    && (forall i :: 0 <= i < |w.parties| ==>
          IdentificationData(w.parties[i].pub.y) != IdentificationData(w.desk.keys.pub.y))
    && (forall i, j :: 0 <= i < j < |w.parties| ==>
          IdentificationData(w.parties[i].pub.y) != IdentificationData(w.parties[j].pub.y))
  }

  /** The number can be a public key modulo p, and its identification can be encrypted. */
  ghost predicate Fits(p: int, y: int) {
    0 < y < p && IdentificationData(y).Some? && Signed(IdentificationData(y).value) < p
  }

  ghost predicate AllDiffer(first: nat, n: nat) {
    forall y, y' :: first <= y < y' <= first + n ==> IdentificationData(y) != IdentificationData(y')
  }

  lemma WorldOfValid(p: int, first: nat, n: nat, refuse: (nat, int) -> bool)
    requires Prime(p) && forall y :: first <= y <= first + n ==> Fits(p, y)
    ensures HonestWorld(WorldOf(p, first, n, refuse))
  {
    var w := WorldOf(p, first, n, refuse);
    assert Fits(p, first);
    PairWellFormed(p, first);
    forall i: nat | i < n
      ensures WellFormedPair(w.parties[i]) && Identified(w.desk.keys.pub, w.parties[i].pub)
    {
      assert Fits(p, first + 1 + i);
      PairWellFormed(p, first + 1 + i);
    }
  }

  lemma WorldOfDistinct(p: int, first: nat, n: nat, refuse: (nat, int) -> bool)
    requires AllDiffer(first, n)
    ensures Distinct(WorldOf(p, first, n, refuse))
  {
  }

  /** Numbers of exactly as many digits as an identification takes fit below a large prime, and all differ. */
  lemma LongNumbersFit(p: int, k: nat, first: nat, n: nat)
    requires k + 1 == IDENTIFICATION_LENGTH && 0 < first == Pow(10, k) && first + n < Pow(10, k + 1)
    requires p > first + n && p > Pow(256, IDENTIFICATION_LENGTH)
    ensures (forall y :: first <= y <= first + n ==> Fits(p, y)) && AllDiffer(first, n)
  {
    forall y: int | first <= y <= first + n ensures Fits(p, y) {
      IdentifiedByAll(y, k);
    }
    forall y: int, y': int | first <= y < y' <= first + n ensures IdentificationData(y) != IdentificationData(y') {
      IdentificationsDiffer(y, y', k);
    }
  }

  /** There is a world of n parties for every n up to 10^124, with any wishes of the users. */
  lemma WorldExists(n: nat, refuse: (nat, int) -> bool) returns (w: World)
    requires n <= Pow(10, IDENTIFICATION_LENGTH - 1)
    ensures HonestWorld(w) && Distinct(w) && |w.parties| == n && w.refuse == refuse
  {
    var k: nat :| k + 1 == IDENTIFICATION_LENGTH;
    var first, bound := Pow(10, k), Pow(256, k + 1);
    PowPositive(10, k);
    PowPositive(256, k + 1);
    var p := PrimeAbove(first + n + bound);
    LongNumbersFit(p, k, first, n);
    w := WorldOf(p, first, n, refuse);
    WorldOfValid(p, first, n, refuse);
    WorldOfDistinct(p, first, n, refuse);
  }

  // ----- a run with a claim of round 1 -----

  /** Everybody refuses to go beyond round 1. */
  ghost predicate RefusesSecond(e: Env) {
    forall i: nat, q: int :: e.refuse(i, q) <==> q == 2
  }

  function FirstRow(e: Env, i: nat): Party {
    IDLE.(started := true, listening := true, status := Signing, rows := map[(1, i) := e.promise(i, 1, i)])
  }

  lemma StartsWithRow(e: Env, i: nat)
    requires !e.refuse(i, 1)
    ensures Start(e, i) == Outcome(FirstRow(e, i), [PromisesOf(e, i, 1)], [], true)
  {
    var s := IDLE.(started := true, listening := true, status := Signing);
    assert s.rows[(1, i) := e.promise(i, 1, i)] == FirstRow(e, i).rows;
    assert !e.refuse(i, s.round);
    assert SendMessage(e, i, s) == Outcome(FirstRow(e, i), [PromisesOf(e, i, 1)], [], true);
  }

  /** Of two parties, the first one claims when the second one's promises complete its row. */
  lemma ClaimsOnSecond(e: Env)
    requires RefusesSecond(e) && e.n == 2 && e.accepts(1, e.promise(1, 1, 0)) == Some(true)
    ensures var o := Notify(e, 0, FirstRow(e, 0), PromisesOf(e, 1, 1));
            o.ok && exists c :: c in o.claims && c.from == 0 && c.round == 1
  {
    var s, m := FirstRow(e, 0), PromisesOf(e, 1, 1);
    assert m.body[0] == Promise(e.promise(1, 1, 0));
    var s' := Store(e, 0, s, m).0;
    assert s' == s.(rows := s.rows[(1, 1) := e.promise(1, 1, 0)]);
    assert ClaimFormed(e, s');
    var o := SendMessage(e, 0, s'.(round := 2));
    assert o == SendClaim(e, 0, s'.(round := 2));
    assert Advance(e, 0, o.party) == Outcome(o.party, [], [], true);
    var all := Notify(e, 0, s, m);
    assert all == After(o.sent, o.claims, Outcome(o.party, [], [], true));
    assert o.claims[0] in all.claims;
  }

  /** Both parties start, and the first one hears the second one. */
  function ShortRun(e: Env): seq<Event> {
    [Begin(0), Begin(1), Deliver(0, PromisesOf(e, 1, 1))]
  }

  lemma ShortRunClaims(e: Env) returns (c: Claim)
    requires RefusesSecond(e) && e.n == 2 && e.accepts(1, e.promise(1, 1, 0)) == Some(true)
    ensures var g := SignProtocol.Run(e, Everybody(2), ShortRun(e));
            c in g.claims && c.from == 0 && c.round == 1 && g.parties[1].expects == Anyone
  {
    var all, events := Everybody(2), ShortRun(e);
    var none: seq<Event> := [];
    assert events[..2][..1] == [Begin(0)] && [Begin(0)][..0] == none;
    var g1 := SignProtocol.Run(e, all, [Begin(0)]);
    var g2 := SignProtocol.Run(e, all, events[..2]);
    StartsWithRow(e, 0);
    StartsWithRow(e, 1);
    assert g1.parties == [FirstRow(e, 0), IDLE];
    assert g2.parties == [FirstRow(e, 0), FirstRow(e, 1)] && PromisesOf(e, 1, 1) in g2.net;
    ClaimsOnSecond(e);
    var o := Notify(e, 0, FirstRow(e, 0), PromisesOf(e, 1, 1));
    c :| c in o.claims && c.from == 0 && c.round == 1;
  }

  /**
   * All that the results about Trent's resolved answers assume can be met together: a world of two parties, a run with
   * a claim of round 1, the letter with it, and a party that trusts Trent's seal now but not after the answer.
   */
  lemma AssumptionsMet() returns (w: World, events: seq<Event>, c: Claim, v: Delivery)
    ensures HonestWorld(w) && Distinct(w) && |w.parties| == 2
    ensures c in HonestRun(w, events).claims && c.round == 1 && FirstLetter(w, c, (NO_COINS, 0), map[], v)
    ensures Trusts(w, HonestRun(w, events).parties[1].expects) && !Trusts(w, OfParty(1))
  {
    PowPositive(10, IDENTIFICATION_LENGTH - 2);
    w := WorldExists(2, (i, q) => q == 2);
    var e := EnvOf(w);
    WorldValid(w, Everybody(|w.parties|));
    events := ShortRun(e);
    c := ShortRunClaims(e);
    ClaimAdmitted(w, events, c, (NO_COINS, 0));
    v := Delivery(LetterOf(w, c, (NO_COINS, 0)).value, claims => None, k => (0, a => 0), k => (NO_COINS, 0));
  }
}
