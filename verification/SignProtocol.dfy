/** All runs of the signing protocol: any number of parties, any network, any behaviour of the dishonest ones. */
module SignProtocol {
  import opened Wrappers
  import opened Sigma
  import opened SigmaSigner
  import opened Trent
  import opened TrentSolver
  import opened SignStep

  /** The parties' states (meaningless for dishonest ones), and everything honest parties sent. */
  datatype Global = Global(parties: seq<Party>, net: set<Message>, claims: set<Claim>)

  /**
   * Party i is started; gets a message; gives up waiting; hears Trent. Messages of honest parties are delivered late,
   * in any order and any number of times; a dishonest party, and Trent, may say anything at any time.
   */
  datatype Event =
    | Begin(i: nat)
    | Deliver(i: nat, m: Message)
    | Timeout(i: nat)
    | TrentSays(i: nat, answer: Answer, seals: map<nat, Signature>)

  /** Signatures whose test as one of party k never throws. */
  ghost predicate Testable(e: Env, k: nat, sig: Signature) {
    forall r :: e.signed(k, sig, r).Some?
  }

  /** What the honest parties' own computations achieve; Pcs and SigmaSigner prove it of the real ones. */
  ghost predicate ValidEnv(e: Env, honest: set<nat>) {
    && (forall i :: i in honest ==> i < e.n)
    && (forall i: nat, q: int, k: nat :: i in honest && 1 <= q <= e.n + 1 && k < e.n ==>
          e.accepts(q, e.promise(i, q, k)) == Some(true))
    && (forall i: nat, k: nat :: i in honest && k < e.n ==> e.clearAccepted(e.clear(i, k)) == Some(true))
    && (forall sig, k: nat :: k < e.n && e.clearAccepted(sig) == Some(true) ==> Testable(e, k, sig))
    && (forall sig, k: nat, r :: k < e.n && e.signed(k, sig, r) == Some(true) ==> Testable(e, k, sig))
  }

  /** The first n parties. */
  function Everybody(n: nat): (all: set<nat>)
    ensures forall i: nat :: i in all <==> i < n
  {
    if n == 0 then {} else Everybody(n - 1) + {n - 1}
  }

  function Init(e: Env): Global {
    Global(seq(e.n, i => IDLE), {}, {})
  }

  ghost predicate Enabled(e: Env, honest: set<nat>, g: Global, v: Event) {
    && v.i in honest && v.i < |g.parties|
    && match v
       case Begin(i) => !g.parties[i].started
       case Deliver(i, m) => g.parties[i].listening && (m in g.net || m.from !in honest)
       case Timeout(i) => g.parties[i].started
       case TrentSays(i, _, _) => g.parties[i].started
  }

  function Reaction(e: Env, s: Party, v: Event): Outcome {
    match v
    case Begin(i) => Start(e, i)
    case Deliver(i, m) => Notify(e, i, s, m)
    case Timeout(i) => SendClaim(e, i, s)
    case TrentSays(i, answer, seals) =>
      var (s', ok) := OnAnswer(e, i, s, answer, seals);
      Outcome(s', [], [], ok)
  }

  ghost function Next(e: Env, honest: set<nat>, g: Global, v: Event): Global {
    if !Enabled(e, honest, g, v) then g
    else
      var o := Reaction(e, g.parties[v.i], v);
      Global(g.parties[v.i := o.party], g.net + (set m | m in o.sent), g.claims + (set c | c in o.claims))
  }

  // ----- what one party keeps -----

  /** What party i sends for round q. */
  function Broadcast(e: Env, i: nat, q: int): Message {
    if q == e.n + 2 then ClearSignatures(e, i) else PromisesOf(e, i, q)
  }

  ghost predicate SignaturesOk(e: Env, signatures: map<nat, Signature>) {
    forall k :: k in signatures ==> k < e.n && Testable(e, k, signatures[k])
  }

  ghost predicate RowsOk(e: Env, i: nat, s: Party) {
    && (forall q, k :: (q, k) in s.rows ==> 0 <= q <= e.n + 1 && k < e.n && e.accepts(q, s.rows[(q, k)]) == Some(true))
    && (forall q: int, k: nat :: 1 <= q < s.round && k < e.n ==> (q, k) in s.rows)
    && (forall q: int :: (q, i) in s.rows ==> 1 <= q <= s.round && s.rows[(q, i)] == e.promise(i, q, i))
  }

  ghost predicate PartyOk(e: Env, i: nat, s: Party) {
    && 1 <= s.round <= e.n + 2
    && RowsOk(e, i, s)
    && SignaturesOk(e, s.signatures)
    && (!s.started ==> s == IDLE)
  }

  ghost predicate IsClaimOf(e: Env, i: nat, s: Party, c: Claim) {
    && s.started && !s.listening
    && c == Claim(i, s.round - 1, if s.round <= 1 then Abort else Request.Promises(RowOf(e, s.rows, s.round - 1)))
  }

  /** A call of party i went well: it kept the party in order and sent only what it should. */
  ghost predicate Good(e: Env, i: nat, s: Party, o: Outcome) {
    && PartyOk(e, i, o.party) && o.party.started
    && o.party.round >= s.round
    && (forall x :: x in s.rows ==> x in o.party.rows && o.party.rows[x] == s.rows[x])
    && (forall m :: m in o.sent ==> 1 <= m.round <= o.party.round && m == Broadcast(e, i, m.round))
    && (forall c :: c in o.claims ==> IsClaimOf(e, i, o.party, c) && o.party.status != Signing)
  }

  /** Everything between two rounds was sent, and nothing more can be sent for now. */
  ghost predicate Complete(e: Env, i: nat, from: int, o: Outcome) {
    o.party.status == Signing ==>
      && (forall q :: from < q <= o.party.round ==> Broadcast(e, i, q) in o.sent)
      && Settled(e, o.party)
  }

  ghost predicate Settled(e: Env, s: Party) {
    s.round <= e.n + 1 ==> !ClaimFormed(e, s)
  }

  lemma {:induction false} RoundsTestable(e: Env, k: nat, sig: Signature, q: int)
    requires Testable(e, k, sig)
    ensures SignedInSomeRound(e, k, sig, q).Some?
    decreases e.n + 2 - q
  {
    if q < e.n + 2 { RoundsTestable(e, k, sig, q + 1); }
  }

  lemma {:induction false} FinalizedReturns(e: Env, signatures: map<nat, Signature>, k: nat, result: bool)
    requires SignaturesOk(e, signatures)
    ensures FinalizedFrom(e, signatures, k, result).Some?
    decreases e.n - k
  {
    if k < e.n && k in signatures {
      RoundsTestable(e, k, signatures[k], 1);
      var late := SignedInSomeRound(e, k, signatures[k], 1).value;
      FinalizedReturns(e, signatures, k + 1, result || late);
    }
  }

  lemma AddSignatureKeeps(e: Env, s: Party, k: nat, sig: Signature)
    requires SignaturesOk(e, s.signatures) && k < e.n && Testable(e, k, sig)
    ensures var (s', ok) := AddSignature(e, s, k, sig);
            && ok && SignaturesOk(e, s'.signatures)
            && s' == s.(signatures := s.signatures[k := sig], status := s'.status)
            && (s'.status == s.status || s'.status == Finalized)
  {
    FinalizedReturns(e, s.signatures[k := sig], 0, false);
  }

  lemma ClaimKeeps(e: Env, i: nat, s: Party)
    requires PartyOk(e, i, s) && s.started
    ensures Good(e, i, s, SendClaim(e, i, s)) && SendClaim(e, i, s).ok
  {
  }

  lemma SendPromisesKeeps(e: Env, honest: set<nat>, i: nat, s: Party, o: Outcome)
    requires ValidEnv(e, honest) && i in honest && PartyOk(e, i, s) && s.started && s.round <= e.n + 1
    requires (s.round, i) !in s.rows
    requires o == Outcome(s.(rows := s.rows[(s.round, i) := e.promise(i, s.round, i)]),
                          [PromisesOf(e, i, s.round)], [], true)
    ensures Good(e, i, s, o)
  {
    assert e.accepts(s.round, e.promise(i, s.round, i)) == Some(true);
  }

  lemma SendKeeps(e: Env, honest: set<nat>, i: nat, s: Party)
    requires ValidEnv(e, honest) && i in honest && PartyOk(e, i, s) && s.started && (s.round, i) !in s.rows
    ensures var o := SendMessage(e, i, s);
            && o.ok && Good(e, i, s, o) && o.party.round == s.round
            && (forall x :: x in o.party.rows ==> x in s.rows || x == (s.round, i))
            && (o.party.status == Signing ==> o.sent == [Broadcast(e, i, s.round)])
  {
    if e.refuse(i, s.round) {
      ClaimKeeps(e, i, s);
    } else if s.round == e.n + 2 {
      assert e.clearAccepted(e.clear(i, i)) == Some(true);
      assert Testable(e, i, e.clear(i, i));
      AddSignatureKeeps(e, s, i, e.clear(i, i));
    } else {
      SendPromisesKeeps(e, honest, i, s, SendMessage(e, i, s));
    }
  }

  /** What sending the next round does, for a party whose round is complete. */
  ghost predicate SentNext(e: Env, i: nat, s: Party, o: Outcome) {
    && o.ok && Good(e, i, s, o) && o.party.round == s.round + 1 && OwnRows(i, s, o.party)
    && (o.party.status == Signing ==> o.sent == [Broadcast(e, i, o.party.round)])
  }

  lemma SendNextKeeps(e: Env, honest: set<nat>, i: nat, s: Party)
    requires ValidEnv(e, honest) && i in honest && PartyOk(e, i, s) && s.started
    requires s.round <= e.n + 1 && ClaimFormed(e, s)
    ensures SentNext(e, i, s, SendMessage(e, i, s.(round := s.round + 1)))
  {
    SendKeeps(e, honest, i, s.(round := s.round + 1));
  }

  /** Two calls of which the second only goes on when the first left the party signing. */
  lemma GoodTwice(e: Env, i: nat, s: Party, o: Outcome, o': Outcome)
    requires Good(e, i, s, o) && Good(e, i, o.party, o') && (o.party.status != Signing ==> o'.party == o.party)
    ensures Good(e, i, s, After(o.sent, o.claims, o'))
  {
  }

  lemma CompleteTwice(e: Env, i: nat, o: Outcome, o': Outcome)
    requires o.party.status == Signing ==> o.sent == [Broadcast(e, i, o.party.round)]
    requires o.party.status != Signing ==> o'.party == o.party
    requires Complete(e, i, o.party.round, o')
    ensures Complete(e, i, o.party.round - 1, After(o.sent, o.claims, o'))
  {
    var q, all := o.party.round, After(o.sent, o.claims, o');
    forall r | q - 1 < r <= all.party.round && all.party.status == Signing ensures Broadcast(e, i, r) in all.sent {
      if r > q { assert Broadcast(e, i, r) in o'.sent; }
    }
  }

  /** Nobody else's promise was added. */
  ghost predicate OwnRows(i: nat, s: Party, s': Party) {
    forall x :: x in s'.rows ==> x in s.rows || x.1 == i
  }

  /** What the loop does from a state. */
  ghost predicate Advanced(e: Env, i: nat, s: Party, o: Outcome) {
    && o.ok && Good(e, i, s, o) && Complete(e, i, s.round, o) && OwnRows(i, s, o.party)
    && (s.status != Signing ==> o.party == s)
  }

  lemma AdvancedTwice(e: Env, i: nat, s: Party, o: Outcome, o': Outcome)
    requires s.status == Signing && SentNext(e, i, s, o) && Advanced(e, i, o.party, o')
    ensures Advanced(e, i, s, After(o.sent, o.claims, o'))
  {
    GoodTwice(e, i, s, o, o');
    CompleteTwice(e, i, o, o');
  }

  lemma StopsHere(e: Env, i: nat, s: Party, o: Outcome)
    requires PartyOk(e, i, s) && s.started && o == Advance(e, i, s)
    requires s.round <= e.n + 1 && ClaimFormed(e, s) ==> s.status != Signing
    ensures Advanced(e, i, s, o)
  {
  }

  lemma {:induction false} GoesOn(e: Env, honest: set<nat>, i: nat, s: Party, first: Outcome, rest: Outcome)
    requires ValidEnv(e, honest) && i in honest
    requires s.status == Signing && SentNext(e, i, s, first) && rest == Advance(e, i, first.party)
    ensures Advanced(e, i, s, After(first.sent, first.claims, rest))
    decreases e.n + 2 - s.round, 0
  {
    AdvanceKeeps(e, honest, i, first.party, rest);
    AdvancedTwice(e, i, s, first, rest);
  }

  lemma {:induction false} SendsNext(e: Env, honest: set<nat>, i: nat, s: Party, o: Outcome)
    requires ValidEnv(e, honest) && i in honest && PartyOk(e, i, s) && s.started && o == Advance(e, i, s)
    requires s.round <= e.n + 1 && ClaimFormed(e, s) && s.status == Signing
    ensures Advanced(e, i, s, o)
    decreases e.n + 2 - s.round, 1
  {
    var first := SendMessage(e, i, s.(round := s.round + 1));
    SendNextKeeps(e, honest, i, s);
    var rest := Advance(e, i, first.party);
    AdvanceUnfolds(e, i, s, first, rest);
    GoesOn(e, honest, i, s, first, rest);
  }

  lemma {:induction false} AdvanceKeeps(e: Env, honest: set<nat>, i: nat, s: Party, o: Outcome)
    requires ValidEnv(e, honest) && i in honest && PartyOk(e, i, s) && s.started && o == Advance(e, i, s)
    ensures Advanced(e, i, s, o)
    decreases e.n + 2 - s.round, 2
  {
    if s.round <= e.n + 1 && ClaimFormed(e, s) && s.status == Signing {
      SendsNext(e, honest, i, s, o);
    } else {
      StopsHere(e, i, s, o);
    }
  }

  /** What storing a message can change. */
  ghost predicate Stored(e: Env, i: nat, s: Party, m: Message, s': Party) {
    && PartyOk(e, i, s') && s'.started && s'.round == s.round
    && (forall x :: x in s.rows ==> x in s'.rows && s'.rows[x] == s.rows[x])
    && (forall x :: x in s'.rows && x !in s.rows ==>
          x == (m.round, m.from) && m.from != i && 0 <= m.round <= e.n + 1
          && i in m.body && m.body[i] == Promise(s'.rows[x]))
    && (s'.status == Signing ==> s.status == Signing)
  }

  lemma StoreClearKeeps(e: Env, honest: set<nat>, i: nat, s: Party, m: Message, sig: Signature)
    requires ValidEnv(e, honest) && PartyOk(e, i, s) && s.started && m.from < e.n
    ensures var (s', ok) := StoreClear(e, s, m.from, sig);
            Stored(e, i, s, m, s') && (!ok ==> s' == s)
  {
    if e.clearAccepted(sig) == Some(true) {
      assert Testable(e, m.from, sig);
      AddSignatureKeeps(e, s, m.from, sig);
    }
  }

  lemma StorePromiseKeeps(e: Env, i: nat, s: Party, m: Message, p: Or)
    requires PartyOk(e, i, s) && s.started && m.from < e.n && m.from != i && 0 <= m.round <= e.n + 1
    requires (m.round, m.from) !in s.rows && i in m.body && m.body[i] == Promise(p)
    ensures var (s', ok) := StorePromise(e, s, m.from, m.round, p);
            Stored(e, i, s, m, s') && (!ok ==> s' == s)
  {
  }

  lemma StoreKeeps(e: Env, honest: set<nat>, i: nat, s: Party, m: Message)
    requires ValidEnv(e, honest) && PartyOk(e, i, s) && s.started
    ensures var (s', ok) := Store(e, i, s, m);
            Stored(e, i, s, m, s') && (!ok ==> s' == s)
  {
    if m.from < e.n && m.from != i && i in m.body {
      match m.body[i]
      case Clear(sig) => StoreClearKeeps(e, honest, i, s, m, sig);
      case Promise(p) =>
        if 0 <= m.round <= e.n + 1 && (m.round, m.from) !in s.rows { StorePromiseKeeps(e, i, s, m, p); }
      case Garbage =>
    }
  }

  lemma {:induction false} AcceptKeeps(e: Env, honest: set<nat>, s: Party, signatures: seq<Signature>, k: nat)
    requires ValidEnv(e, honest) && SignaturesOk(e, s.signatures)
    ensures var s' := AcceptAll(e, s, signatures, k).0;
            && SignaturesOk(e, s'.signatures)
            && s' == s.(signatures := s'.signatures, status := s'.status, expects := s'.expects)
            && (s'.status == s.status || s'.status == Finalized)
    decreases |signatures| - k
  {
    if k < |signatures| && k < e.n {
      var s' := s.(expects := OfParty(k));
      var good := SignedInThreeRounds(e, k, signatures[k], s.round);
      if good == Some(true) {
        assert Testable(e, k, signatures[k]);
        AddSignatureKeeps(e, s', k, signatures[k]);
        AcceptKeeps(e, honest, AddSignature(e, s', k, signatures[k]).0, signatures, k + 1);
      } else if good == Some(false) {
        AcceptKeeps(e, honest, s', signatures, k + 1);
      }
    }
  }

  /** Trent's answer moves no party to another round. */
  lemma AnswerKeeps(e: Env, honest: set<nat>, i: nat, s: Party, answer: Answer, seals: map<nat, Signature>)
    requires ValidEnv(e, honest) && PartyOk(e, i, s) && s.started
    ensures var s' := OnAnswer(e, i, s, answer, seals).0;
            && PartyOk(e, i, s') && s'.started && s'.round == s.round && s'.rows == s.rows
            && (s'.listening ==> s.listening)
            && (s'.status == Signing ==> s.status == Signing)
  {
    if answer.Resolved? { AcceptKeeps(e, honest, s, answer.signatures, 0); }
  }

  /** A party that is still signing holds its own promise of the current round. */
  ghost predicate OwnPromiseKept(e: Env, i: nat, s: Party) {
    s.status == Signing && s.round <= e.n + 1 ==> (s.round, i) in s.rows
  }

  lemma SendKeepsOwn(e: Env, i: nat, s: Party)
    ensures OwnPromiseKept(e, i, SendMessage(e, i, s).party) && SendMessage(e, i, s).party.round == s.round
  {
  }

  lemma {:induction false} AdvanceKeepsOwn(e: Env, i: nat, s: Party, o: Outcome)
    requires OwnPromiseKept(e, i, s) && o == Advance(e, i, s)
    ensures OwnPromiseKept(e, i, o.party)
    decreases e.n + 2 - s.round
  {
    if s.round <= e.n + 1 && ClaimFormed(e, s) && s.status == Signing {
      var first := SendMessage(e, i, s.(round := s.round + 1));
      SendKeepsOwn(e, i, s.(round := s.round + 1));
      if first.ok { AdvanceKeepsOwn(e, i, first.party, Advance(e, i, first.party)); }
    }
  }

  // ----- what all parties keep -----

  /** What i holds from an honest j in round q, j has sent to it. */
  ghost predicate Heard(e: Env, honest: set<nat>, parties: seq<Party>, i: nat, rows: Rows)
    requires |parties| == e.n
  {
    forall q: int, j: nat :: (q, j) in rows && j in honest && j < e.n ==>
      parties[j].started && 1 <= q <= parties[j].round && rows[(q, j)] == e.promise(j, q, i)
  }

  ghost predicate PartiesOk(e: Env, honest: set<nat>, parties: seq<Party>) {
    && |parties| == e.n
    && forall i :: i in honest && i < e.n ==> PartyOk(e, i, parties[i]) && Heard(e, honest, parties, i, parties[i].rows)
  }

  ghost predicate MessageOk(e: Env, honest: set<nat>, parties: seq<Party>, m: Message) {
    && m.from in honest && m.from < |parties| && parties[m.from].started
    && 1 <= m.round <= parties[m.from].round && m == Broadcast(e, m.from, m.round)
  }

  ghost predicate ClaimOk(e: Env, honest: set<nat>, parties: seq<Party>, c: Claim) {
    c.from in honest && c.from < |parties| && IsClaimOf(e, c.from, parties[c.from], c)
  }

  /** A party that is still signing has sent every round up to its own, and waits for somebody. */
  ghost predicate Waiting(e: Env, i: nat, s: Party, net: set<Message>) {
    s.status == Signing ==>
      && s.started && OwnPromiseKept(e, i, s)
      && (forall q :: 1 <= q <= s.round ==> Broadcast(e, i, q) in net)
      && (e.n >= 2 ==> Settled(e, s))
  }

  ghost predicate Inv(e: Env, honest: set<nat>, g: Global) {
    && PartiesOk(e, honest, g.parties)
    && (forall m :: m in g.net ==> MessageOk(e, honest, g.parties, m))
    && (forall c :: c in g.claims ==> ClaimOk(e, honest, g.parties, c))
    && (forall i :: i in honest && i < e.n ==> Waiting(e, i, g.parties[i], g.net))
  }

  /** What a party does in one event, whatever the others do. */
  ghost predicate Step(e: Env, honest: set<nat>, g: Global, i: nat, o: Outcome)
    requires i < |g.parties| == e.n
  {
    var s := g.parties[i];
    && Good(e, i, s, o)
    && (forall q: int, j: nat :: (q, j) in o.party.rows && (q, j) !in s.rows && j in honest && j < e.n && j != i ==>
          g.parties[j].started && 1 <= q <= g.parties[j].round && o.party.rows[(q, j)] == e.promise(j, q, i))
    && (s.started && !s.listening ==>
          !o.party.listening && o.party.round == s.round && o.party.rows == s.rows)
    && (o.party.status == Signing ==>
          && (forall q :: (if s.started then s.round else 0) < q <= o.party.round ==> Broadcast(e, i, q) in o.sent)
          && (s.started ==> s.status == Signing)
          && OwnPromiseKept(e, i, o.party)
          && (e.n >= 2 ==> Settled(e, o.party)))
  }

  lemma BeginSteps(e: Env, honest: set<nat>, g: Global, i: nat)
    requires ValidEnv(e, honest) && Inv(e, honest, g) && i in honest && i < e.n && !g.parties[i].started
    ensures Start(e, i).ok && Step(e, honest, g, i, Start(e, i))
  {
    var s := IDLE.(started := true, listening := true, status := Signing);
    assert PartyOk(e, i, g.parties[i]);
    SendKeeps(e, honest, i, s);
    var o := Start(e, i);
    if e.n >= 2 && o.party.status == Signing {
      var other := if i == 0 then 1 else 0;
      assert (1, other) !in o.party.rows;
    }
  }

  /** A delivered message adds at most one promise of another party, and that one was sent. */
  lemma DeliverSteps(e: Env, honest: set<nat>, g: Global, i: nat, m: Message)
    requires ValidEnv(e, honest) && Inv(e, honest, g) && i in honest && i < e.n
    requires g.parties[i].listening && (m in g.net || m.from !in honest)
    ensures Step(e, honest, g, i, Notify(e, i, g.parties[i], m))
  {
    var s := g.parties[i];
    assert PartyOk(e, i, s) && Waiting(e, i, s, g.net);
    StoreKeeps(e, honest, i, s, m);
    var (s', ok) := Store(e, i, s, m);
    var o := Notify(e, i, s, m);
    if ok {
      AdvanceKeeps(e, honest, i, s', o);
      AdvanceKeepsOwn(e, i, s', o);
    }
    if m in g.net { assert MessageOk(e, honest, g.parties, m); }
  }

  lemma TimeoutSteps(e: Env, honest: set<nat>, g: Global, i: nat)
    requires Inv(e, honest, g) && i in honest && i < e.n && g.parties[i].started
    ensures SendClaim(e, i, g.parties[i]).ok && Step(e, honest, g, i, SendClaim(e, i, g.parties[i]))
  {
    assert PartyOk(e, i, g.parties[i]);
    ClaimKeeps(e, i, g.parties[i]);
  }

  lemma AnswerSteps(e: Env, honest: set<nat>, g: Global, i: nat, answer: Answer, seals: map<nat, Signature>)
    requires ValidEnv(e, honest) && Inv(e, honest, g) && i in honest && i < e.n && g.parties[i].started
    ensures var (s', ok) := OnAnswer(e, i, g.parties[i], answer, seals);
            Step(e, honest, g, i, Outcome(s', [], [], ok))
  {
    assert PartyOk(e, i, g.parties[i]) && Waiting(e, i, g.parties[i], g.net);
    AnswerKeeps(e, honest, i, g.parties[i], answer, seals);
  }

  lemma EventSteps(e: Env, honest: set<nat>, g: Global, v: Event)
    requires ValidEnv(e, honest) && Inv(e, honest, g) && Enabled(e, honest, g, v)
    ensures v.i < e.n && Step(e, honest, g, v.i, Reaction(e, g.parties[v.i], v))
  {
    match v
    case Begin(i) => BeginSteps(e, honest, g, i);
    case Deliver(i, m) => DeliverSteps(e, honest, g, i, m);
    case Timeout(i) => TimeoutSteps(e, honest, g, i);
    case TrentSays(i, answer, seals) => AnswerSteps(e, honest, g, i, answer, seals);
  }

  lemma StepKeepsParties(e: Env, honest: set<nat>, g: Global, i: nat, o: Outcome)
    requires Inv(e, honest, g) && i in honest && i < e.n && Step(e, honest, g, i, o)
    ensures PartiesOk(e, honest, g.parties[i := o.party])
  {
    var parties := g.parties[i := o.party];
    forall k | k in honest && k < e.n
      ensures PartyOk(e, k, parties[k]) && Heard(e, honest, parties, k, parties[k].rows)
    {
      assert PartyOk(e, k, g.parties[k]) && Heard(e, honest, g.parties, k, g.parties[k].rows);
    }
  }

  lemma StepKeepsMessages(e: Env, honest: set<nat>, g: Global, i: nat, o: Outcome)
    requires Inv(e, honest, g) && i in honest && i < e.n && Step(e, honest, g, i, o)
    ensures forall m :: m in g.net || m in o.sent ==> MessageOk(e, honest, g.parties[i := o.party], m)
  {
    forall m | m in g.net ensures MessageOk(e, honest, g.parties[i := o.party], m) {
      assert MessageOk(e, honest, g.parties, m);
    }
    forall m | m in o.sent ensures MessageOk(e, honest, g.parties[i := o.party], m) {
      assert m == Broadcast(e, i, m.round);
    }
  }

  lemma StepKeepsClaims(e: Env, honest: set<nat>, g: Global, i: nat, o: Outcome)
    requires Inv(e, honest, g) && i in honest && i < e.n && Step(e, honest, g, i, o)
    ensures forall c :: c in g.claims || c in o.claims ==> ClaimOk(e, honest, g.parties[i := o.party], c)
  {
    forall c | c in g.claims ensures ClaimOk(e, honest, g.parties[i := o.party], c) {
      assert ClaimOk(e, honest, g.parties, c);
    }
    forall c | c in o.claims ensures ClaimOk(e, honest, g.parties[i := o.party], c) {
      assert IsClaimOf(e, i, o.party, c);
    }
  }

  lemma StepKeepsWaiting(e: Env, honest: set<nat>, g: Global, i: nat, o: Outcome, net: set<Message>)
    requires Inv(e, honest, g) && i in honest && i < e.n && Step(e, honest, g, i, o)
    requires net == g.net + set m | m in o.sent
    ensures forall k :: k in honest && k < e.n ==> Waiting(e, k, g.parties[i := o.party][k], net)
  {
    forall k | k in honest && k < e.n ensures Waiting(e, k, g.parties[i := o.party][k], net) {
      assert Waiting(e, k, g.parties[k], g.net);
      if k == i && o.party.status == Signing {
        forall q | 1 <= q <= o.party.round ensures Broadcast(e, i, q) in net {
          if g.parties[i].started && q <= g.parties[i].round {
            assert Broadcast(e, i, q) in g.net;
          } else {
            assert Broadcast(e, i, q) in o.sent;
          }
        }
      }
    }
  }

  /** Every event keeps the invariant. */
  lemma NextKeeps(e: Env, honest: set<nat>, g: Global, v: Event)
    requires ValidEnv(e, honest) && Inv(e, honest, g)
    ensures Inv(e, honest, Next(e, honest, g, v))
  {
    if Enabled(e, honest, g, v) {
      EventSteps(e, honest, g, v);
      var o := Reaction(e, g.parties[v.i], v);
      var g' := Next(e, honest, g, v);
      StepKeepsParties(e, honest, g, v.i, o);
      StepKeepsMessages(e, honest, g, v.i, o);
      StepKeepsClaims(e, honest, g, v.i, o);
      StepKeepsWaiting(e, honest, g, v.i, o, g'.net);
    }
  }

  /** The state after any sequence of events; events that cannot happen are skipped. */
  ghost function Run(e: Env, honest: set<nat>, events: seq<Event>): (g: Global)
    ensures |g.parties| == e.n
    decreases |events|
  {
    if events == [] then Init(e)
    else Next(e, honest, Run(e, honest, events[..|events| - 1]), events[|events| - 1])
  }

  /** The invariant holds in every reachable state. */
  lemma {:induction false} RunKeeps(e: Env, honest: set<nat>, events: seq<Event>)
    requires ValidEnv(e, honest)
    ensures Inv(e, honest, Run(e, honest, events))
    decreases |events|
  {
    if events != [] {
      RunKeeps(e, honest, events[..|events| - 1]);
      NextKeeps(e, honest, Run(e, honest, events[..|events| - 1]), events[|events| - 1]);
    }
  }

  // ----- the theorems -----

  /** Nobody is ever more than one round ahead of anybody else who has started. */
  lemma RoundsClose(e: Env, honest: set<nat>, events: seq<Event>, i: nat, j: nat)
    requires ValidEnv(e, honest) && i in honest && j in honest
    requires var g := Run(e, honest, events); g.parties[i].started && g.parties[j].started
    ensures var g := Run(e, honest, events);
            -1 <= g.parties[i].round - g.parties[j].round <= 1
  {
    RunKeeps(e, honest, events);
    var g := Run(e, honest, events);
    OneAhead(e, honest, g, i, j);
    OneAhead(e, honest, g, j, i);
  }

  /** Who is in round 2 or later has heard everybody in the round before. */
  lemma OneAhead(e: Env, honest: set<nat>, g: Global, i: nat, j: nat)
    requires Inv(e, honest, g) && i in honest && j in honest && i < e.n && j < e.n
    ensures g.parties[i].round >= 2 ==> g.parties[j].started && g.parties[i].round <= g.parties[j].round + 1
  {
    assert PartyOk(e, i, g.parties[i]) && Heard(e, honest, g.parties, i, g.parties[i].rows);
    if g.parties[i].round >= 2 { assert (g.parties[i].round - 1, j) in g.parties[i].rows; }
  }

  /** A full row of verified promises in which every honest party's promise is its own, made for this receiver. */
  ghost predicate FullRow(e: Env, honest: set<nat>, i: nat, q: int, row: Row) {
    && |row| == e.n
    && forall k :: 0 <= k < e.n ==>
         && row[k].Some? && e.accepts(q, row[k].value) == Some(true)
         && (k in honest ==> row[k].value == e.promise(k, q, i))
  }

  /** Every row before the current round is full and verifies. */
  lemma RowsFull(e: Env, honest: set<nat>, events: seq<Event>, i: nat, q: int)
    requires ValidEnv(e, honest) && i in honest
    requires 1 <= q < Run(e, honest, events).parties[i].round
    ensures FullRow(e, honest, i, q, RowOf(e, Run(e, honest, events).parties[i].rows, q))
  {
    RunKeeps(e, honest, events);
    RowsFullIn(e, honest, Run(e, honest, events), i, q);
  }

  lemma RowsFullIn(e: Env, honest: set<nat>, g: Global, i: nat, q: int)
    requires Inv(e, honest, g) && i in honest && i < e.n && 1 <= q < g.parties[i].round
    ensures FullRow(e, honest, i, q, RowOf(e, g.parties[i].rows, q))
  {
    var rows := g.parties[i].rows;
    assert PartyOk(e, i, g.parties[i]) && Heard(e, honest, g.parties, i, rows);
    forall k: nat | k < e.n
      ensures (q, k) in rows && e.accepts(q, rows[(q, k)]) == Some(true)
              && (k in honest ==> rows[(q, k)] == e.promise(k, q, i))
    {
    }
  }

  /** A claim is the word ABORT for round 0, or a full row of a round from 1 to n + 1; on the refusing path too. */
  lemma ClaimsFull(e: Env, honest: set<nat>, events: seq<Event>, c: Claim)
    requires ValidEnv(e, honest) && c in Run(e, honest, events).claims
    ensures c.from in honest && 0 <= c.round <= e.n + 1
    ensures if c.round == 0 then c.request == Abort
            else c.request.Promises? && FullRow(e, honest, c.from, c.round, c.request.row)
  {
    RunKeeps(e, honest, events);
    var g := Run(e, honest, events);
    assert ClaimOk(e, honest, g.parties, c);
    assert PartyOk(e, c.from, g.parties[c.from]);
    if c.round > 0 { RowsFullIn(e, honest, g, c.from, c.round); }
  }

  lemma {:induction false} ClaimsStay(e: Env, honest: set<nat>, events: seq<Event>, k: nat)
    requires k <= |events|
    ensures Run(e, honest, events[..k]).claims <= Run(e, honest, events).claims
    ensures Run(e, honest, events[..k]).net <= Run(e, honest, events).net
    decreases |events| - k
  {
    if k < |events| {
      assert events[..k + 1][..k] == events[..k];
      ClaimsStay(e, honest, events, k + 1);
    } else {
      assert events[..k] == events;
    }
  }

  /** Who has sent a claim stays in its round for ever, does not listen any more, and never claims anything else. */
  lemma ResolverFrozen(e: Env, honest: set<nat>, events: seq<Event>, k: nat, c: Claim, c': Claim)
    requires ValidEnv(e, honest) && k <= |events| && c in Run(e, honest, events[..k]).claims
    requires c' in Run(e, honest, events).claims && c'.from == c.from
    ensures c.from < e.n
    ensures var s := Run(e, honest, events).parties[c.from];
            s.round == c.round + 1 && !s.listening && c' == c
  {
    RunKeeps(e, honest, events);
    ClaimsStay(e, honest, events, k);
    var g := Run(e, honest, events);
    assert ClaimOk(e, honest, g.parties, c) && ClaimOk(e, honest, g.parties, c');
  }

  /** At any later time the three rounds that a party tests on Trent's answer include the round of the claim. */
  lemma ThreeRoundsSuffice(e: Env, honest: set<nat>, events: seq<Event>, k: nat, c: Claim, d: nat)
    requires ValidEnv(e, honest) && k <= |events| && c in Run(e, honest, events[..k]).claims && c.round >= 1
    requires d in honest
    ensures var s := Run(e, honest, events).parties[d];
            s.started && (c.round == s.round || c.round == s.round - 1 || c.round == s.round - 2)
  {
    RunKeeps(e, honest, events);
    ClaimsStay(e, honest, events, k);
    var g := Run(e, honest, events);
    assert ClaimOk(e, honest, g.parties, c);
    OneAhead(e, honest, g, c.from, d);
    OneAhead(e, honest, g, d, c.from);
  }

  /** Once a party has sent its clear signatures, no honest party aborts: every claim is a row of round n or n + 1. */
  lemma NoAbortAfterClear(e: Env, honest: set<nat>, events: seq<Event>, j: nat, c: Claim)
    requires ValidEnv(e, honest) && e.n >= 1
    requires ClearSignatures(e, j) in Run(e, honest, events).net && c in Run(e, honest, events).claims
    ensures c.round >= e.n && c.request.Promises?
  {
    RunKeeps(e, honest, events);
    var g := Run(e, honest, events);
    assert MessageOk(e, honest, g.parties, ClearSignatures(e, j));
    assert ClaimOk(e, honest, g.parties, c);
    OneAhead(e, honest, g, j, c.from);
  }

  /** Everything that was sent was received, as far as promises go. */
  ghost predicate AllReceived(e: Env, g: Global)
    requires |g.parties| == e.n
  {
    forall m, i: nat :: m in g.net && i < e.n && i != m.from && m.round <= e.n + 1 ==>
      (m.round, m.from) in g.parties[i].rows
  }

  function Lowest(parties: seq<Party>): (k: nat)
    requires parties != []
    ensures k < |parties| && forall i :: 0 <= i < |parties| ==> parties[k].round <= parties[i].round
  {
    if |parties| == 1 then 0
    else
      var k := Lowest(parties[..|parties| - 1]);
      if parties[k].round <= parties[|parties| - 1].round then k else |parties| - 1
  }

  /** Some message was handled by party i: another party's, or its own that came back. */
  ghost predicate Heeded(e: Env, honest: set<nat>, events: seq<Event>, i: nat)
    decreases |events|
  {
    events != [] && var before := events[..|events| - 1];
      Heeded(e, honest, before, i) || Handles(e, honest, Run(e, honest, before), events[|events| - 1], i)
  }

  ghost predicate Handles(e: Env, honest: set<nat>, g: Global, v: Event, i: nat) {
    v.Deliver? && v.i == i && Enabled(e, honest, g, v) && Reaction(e, g.parties[i], v).ok
  }

  /** Until it handles a message a party stays in round 1; then it looks at its row whenever that may have changed. */
  ghost predicate Looks(e: Env, s: Party, heeded: bool) {
    if heeded then s.started && (s.status == Signing ==> Settled(e, s)) else s.round == 1
  }

  lemma DeliverLooks(e: Env, honest: set<nat>, i: nat, s: Party, m: Message, heeded: bool)
    requires ValidEnv(e, honest) && i in honest && PartyOk(e, i, s) && s.listening && Looks(e, s, heeded)
    ensures var o := Notify(e, i, s, m);
            Looks(e, o.party, heeded || o.ok)
  {
    StoreKeeps(e, honest, i, s, m);
    var (s', ok) := Store(e, i, s, m);
    if ok { AdvanceKeeps(e, honest, i, s', Advance(e, i, s')); }
  }

  lemma StepLooks(e: Env, honest: set<nat>, g: Global, v: Event, i: nat, heeded: bool)
    requires ValidEnv(e, honest) && Inv(e, honest, g) && i in honest && i < e.n && Looks(e, g.parties[i], heeded)
    ensures Looks(e, Next(e, honest, g, v).parties[i], heeded || Handles(e, honest, g, v, i))
  {
    var s := g.parties[i];
    assert PartyOk(e, i, s);
    if Enabled(e, honest, g, v) && v.i == i {
      match v
      case Begin(_) => SendKeeps(e, honest, i, IDLE.(started := true, listening := true, status := Signing));
      case Deliver(_, m) => DeliverLooks(e, honest, i, s, m, heeded);
      case Timeout(_) =>
      case TrentSays(_, answer, seals) => AnswerKeeps(e, honest, i, s, answer, seals);
    }
  }

  lemma {:induction false} RunLooks(e: Env, honest: set<nat>, events: seq<Event>, i: nat)
    requires ValidEnv(e, honest) && i in honest && i < e.n
    ensures Looks(e, Run(e, honest, events).parties[i], Heeded(e, honest, events, i))
    decreases |events|
  {
    if events != [] {
      var before := events[..|events| - 1];
      RunLooks(e, honest, before, i);
      RunKeeps(e, honest, before);
      StepLooks(e, honest, Run(e, honest, before), events[|events| - 1], i, Heeded(e, honest, before, i));
    }
  }

  /** Who is in the lowest round has heard everybody in it, so it cannot be waiting. */
  lemma LowestDone(e: Env, honest: set<nat>, g: Global, low: nat)
    requires Inv(e, honest, g) && (forall i: nat :: i < e.n ==> i in honest) && AllReceived(e, g)
    requires low < e.n && forall i :: 0 <= i < e.n ==> g.parties[low].round <= g.parties[i].round
    requires forall i :: 0 <= i < e.n ==> g.parties[i].status == Signing
    requires e.n >= 2 || Settled(e, g.parties[0])
    ensures g.parties[low].round == e.n + 2
  {
    var s := g.parties[low];
    assert PartyOk(e, low, s) && Waiting(e, low, s, g.net);
    if s.round <= e.n + 1 {
      forall k: nat | k < e.n ensures (s.round, k) in s.rows {
        assert Waiting(e, k, g.parties[k], g.net);
        assert Broadcast(e, k, s.round) in g.net;
      }
      assert false;
    }
  }

  /**
   * Nobody gets stuck: honest parties that are all signing and have received everything have sent it all. With one
   * party, that means that some message of its own has come back to it.
   */
  lemma NobodyStuck(e: Env, honest: set<nat>, events: seq<Event>)
    requires ValidEnv(e, honest) && e.n >= 1 && (forall i: nat :: i < e.n ==> i in honest)
    requires e.n >= 2 || Heeded(e, honest, events, 0)
    requires var g := Run(e, honest, events);
             AllReceived(e, g) && forall i :: 0 <= i < e.n ==> g.parties[i].status == Signing
    ensures forall i :: 0 <= i < e.n ==> Run(e, honest, events).parties[i].round == e.n + 2
  {
    RunKeeps(e, honest, events);
    var g := Run(e, honest, events);
    RunLooks(e, honest, events, 0);
    LowestDone(e, honest, g, Lowest(g.parties));
    forall i | 0 <= i < e.n ensures g.parties[i].round == e.n + 2 {
      assert PartyOk(e, i, g.parties[i]);
    }
  }

  /** A party alone is in the first round or in the last: in the last exactly when a message came back to it. */
  lemma LonePartyExactly(e: Env, honest: set<nat>, events: seq<Event>)
    requires ValidEnv(e, honest) && e.n == 1 && 0 in honest
    requires Run(e, honest, events).parties[0].status == Signing
    ensures Run(e, honest, events).parties[0].round == if Heeded(e, honest, events, 0) then e.n + 2 else 1
  {
    RunKeeps(e, honest, events);
    RunLooks(e, honest, events, 0);
    var g := Run(e, honest, events);
    assert PartyOk(e, 0, g.parties[0]) && Waiting(e, 0, g.parties[0], g.net);
  }

  /** No call throws that an honest party makes on its own, or on a message of an honest party. */
  lemma HonestCallsReturn(e: Env, honest: set<nat>, events: seq<Event>, v: Event)
    requires ValidEnv(e, honest) && Enabled(e, honest, Run(e, honest, events), v)
    requires !v.TrentSays? && (v.Deliver? ==> v.m in Run(e, honest, events).net)
    ensures Reaction(e, Run(e, honest, events).parties[v.i], v).ok
  {
    RunKeeps(e, honest, events);
    var g := Run(e, honest, events);
    match v
    case Begin(i) => BeginSteps(e, honest, g, i);
    case Timeout(i) => TimeoutSteps(e, honest, g, i);
    case Deliver(i, m) =>
      assert MessageOk(e, honest, g.parties, m) && PartyOk(e, i, g.parties[i]);
      HonestMessageStored(e, honest, i, g.parties[i], m);
      StoreKeeps(e, honest, i, g.parties[i], m);
      var (s', ok) := Store(e, i, g.parties[i], m);
      AdvanceKeeps(e, honest, i, s', Advance(e, i, s'));
    case TrentSays(_, _, _) =>
  }

  lemma HonestMessageStored(e: Env, honest: set<nat>, i: nat, s: Party, m: Message)
    requires ValidEnv(e, honest) && i < e.n && PartyOk(e, i, s) && m.from in honest
    requires 1 <= m.round <= e.n + 2 && m == Broadcast(e, m.from, m.round)
    ensures Store(e, i, s, m).1
  {
    if m.round == e.n + 2 {
      var sig := e.clear(m.from, i);
      assert e.clearAccepted(sig) == Some(true);
      AddSignatureKeeps(e, s, m.from, sig);
    }
  }

  // ----- when a contract counts as finalized -----

  ghost predicate HasClear(e: Env, signatures: map<nat, Signature>, k: nat) {
    k in signatures && e.signed(k, signatures[k], None) == Some(true)
  }

  ghost predicate HasLate(e: Env, signatures: map<nat, Signature>, k: nat) {
    k in signatures && exists q :: 1 <= q <= e.n + 1 && e.signed(k, signatures[k], Some(q)) == Some(true)
  }

  lemma {:induction false} LateExactly(e: Env, signatures: map<nat, Signature>, k: nat, q: int)
    requires k in signatures && Testable(e, k, signatures[k]) && q >= 1
    ensures SignedInSomeRound(e, k, signatures[k], q) == Some(true)
            <==> exists r :: q <= r <= e.n + 1 && e.signed(k, signatures[k], Some(r)) == Some(true)
    decreases e.n + 2 - q
  {
    RoundsTestable(e, k, signatures[k], q);
    if q <= e.n + 1 {
      LateExactly(e, signatures, k, q + 1);
    }
  }

  /** The signatures decide from party k on: those before k are there and none of them is a clear one. */
  ghost predicate Decides(e: Env, signatures: map<nat, Signature>, from: nat, result: bool) {
    || (exists k :: from <= k < e.n && HasClear(e, signatures, k) && forall j :: from <= j <= k ==> j in signatures)
    || ((forall j :: from <= j < e.n ==> j in signatures)
        && (result || exists k :: from <= k < e.n && HasLate(e, signatures, k)))
  }

  lemma {:induction false} FinalizedFromExactly(e: Env, signatures: map<nat, Signature>, from: nat, result: bool)
    requires SignaturesOk(e, signatures) && from <= e.n
    ensures FinalizedFrom(e, signatures, from, result) == Some(true) <==> Decides(e, signatures, from, result)
    decreases e.n - from
  {
    if from < e.n && from in signatures {
      assert Testable(e, from, signatures[from]);
      if e.signed(from, signatures[from], None) == Some(true) {
        assert HasClear(e, signatures, from);
      } else {
        RoundsTestable(e, from, signatures[from], 1);
        LateExactly(e, signatures, from, 1);
        var late := SignedInSomeRound(e, from, signatures[from], 1).value;
        assert late <==> HasLate(e, signatures, from);
        FinalizedFromExactly(e, signatures, from + 1, result || late);
        DecidesNext(e, signatures, from, result, late);
      }
    }
  }

  lemma DecidesNext(e: Env, signatures: map<nat, Signature>, from: nat, result: bool, late: bool)
    requires from < e.n && from in signatures && !HasClear(e, signatures, from)
    requires late <==> HasLate(e, signatures, from)
    ensures Decides(e, signatures, from, result) <==> Decides(e, signatures, from + 1, result || late)
  {
  }

  /**
   * A contract counts as finalized exactly when a clear signature verifies whose predecessors are all there, or all
   * signatures are there and one of them verifies for some round: far less than every party having signed.
   */
  lemma FinalizedExactly(e: Env, signatures: map<nat, Signature>)
    requires SignaturesOk(e, signatures)
    ensures FinalizedFrom(e, signatures, 0, false) == Some(true) <==>
            || (exists k :: 0 <= k < e.n && HasClear(e, signatures, k) && forall j :: 0 <= j <= k ==> j in signatures)
            || ((forall j :: 0 <= j < e.n ==> j in signatures) && exists k :: 0 <= k < e.n && HasLate(e, signatures, k))
  {
    FinalizedFromExactly(e, signatures, 0, false);
  }

  /** One clear signature, of the first party, is enough. */
  lemma OneSignatureFinalizes(e: Env, sig: Signature)
    requires e.n >= 2 && Testable(e, 0, sig) && e.signed(0, sig, None) == Some(true)
    ensures FinalizedFrom(e, map[0 := sig], 0, false) == Some(true) && 1 !in map[0 := sig]
  {
  }

  // ----- who sends what -----

  /** Exactly the rounds up to the party's own that its user did not refuse are sent, and a refused one is claimed. */
  ghost predicate RoundsSent(e: Env, i: nat, from: int, o: Outcome) {
    && (forall q :: Broadcast(e, i, q) in o.sent <==> from < q <= o.party.round && !e.refuse(i, q))
    && (o.claims != [] <==> from < o.party.round && e.refuse(i, o.party.round))
  }

  lemma SendRounds(e: Env, honest: set<nat>, i: nat, s: Party, o: Outcome)
    requires ValidEnv(e, honest) && i in honest && PartyOk(e, i, s) && s.started && (s.round, i) !in s.rows
    requires o == SendMessage(e, i, s)
    ensures o.party.round == s.round && RoundsSent(e, i, s.round - 1, o)
    ensures e.refuse(i, s.round) ==> o.party.status != Signing
  {
    SendKeeps(e, honest, i, s);
    forall q ensures Broadcast(e, i, q) in o.sent <==> q == s.round && !e.refuse(i, q) {
      assert Broadcast(e, i, q).round == q;
    }
  }

  lemma RoundsSentTwice(e: Env, i: nat, from: int, first: Outcome, rest: Outcome)
    requires first.party.round == from + 1 <= rest.party.round
    requires RoundsSent(e, i, from, first) && RoundsSent(e, i, from + 1, rest)
    requires e.refuse(i, from + 1) ==> rest == Outcome(first.party, [], [], true)
    ensures RoundsSent(e, i, from, After(first.sent, first.claims, rest))
  {
    var all := After(first.sent, first.claims, rest);
    forall q ensures Broadcast(e, i, q) in all.sent <==> from < q <= all.party.round && !e.refuse(i, q) {
      assert Broadcast(e, i, q) in all.sent <==> Broadcast(e, i, q) in first.sent || Broadcast(e, i, q) in rest.sent;
    }
  }

  /** The first of the rounds that the loop sends. */
  lemma NextRound(e: Env, honest: set<nat>, i: nat, s: Party, first: Outcome)
    requires ValidEnv(e, honest) && i in honest && PartyOk(e, i, s) && s.started
    requires s.round <= e.n + 1 && ClaimFormed(e, s) && first == SendMessage(e, i, s.(round := s.round + 1))
    ensures SentNext(e, i, s, first) && RoundsSent(e, i, s.round, first)
    ensures e.refuse(i, s.round + 1) ==> first.party.status != Signing
  {
    SendNextKeeps(e, honest, i, s);
    SendRounds(e, honest, i, s.(round := s.round + 1), first);
  }

  lemma {:induction false} AdvanceRounds(e: Env, honest: set<nat>, i: nat, s: Party, o: Outcome)
    requires ValidEnv(e, honest) && i in honest && PartyOk(e, i, s) && s.started && o == Advance(e, i, s)
    ensures RoundsSent(e, i, s.round, o)
    decreases e.n + 2 - s.round, 1
  {
    if s.round <= e.n + 1 && ClaimFormed(e, s) && s.status == Signing {
      var first := SendMessage(e, i, s.(round := s.round + 1));
      NextRound(e, honest, i, s, first);
      var rest := Advance(e, i, first.party);
      AdvanceUnfolds(e, i, s, first, rest);
      RoundsGoOn(e, honest, i, s, first, rest);
    }
  }

  lemma {:induction false} RoundsGoOn(e: Env, honest: set<nat>, i: nat, s: Party, first: Outcome, rest: Outcome)
    requires ValidEnv(e, honest) && i in honest && s.round <= e.n + 1
    requires SentNext(e, i, s, first) && rest == Advance(e, i, first.party)
    requires RoundsSent(e, i, s.round, first) && (e.refuse(i, s.round + 1) ==> first.party.status != Signing)
    ensures RoundsSent(e, i, s.round, After(first.sent, first.claims, rest))
    decreases e.n + 2 - s.round, 0
  {
    AdvanceKeeps(e, honest, i, first.party, rest);
    AdvanceRounds(e, honest, i, first.party, rest);
    RoundsSentTwice(e, i, s.round, first, rest);
  }

  lemma DeliverRounds(e: Env, honest: set<nat>, i: nat, s: Party, m: Message)
    requires ValidEnv(e, honest) && i in honest && PartyOk(e, i, s) && s.started
    ensures RoundsSent(e, i, s.round, Notify(e, i, s, m))
  {
    StoreKeeps(e, honest, i, s, m);
    var (s', ok) := Store(e, i, s, m);
    if ok { AdvanceRounds(e, honest, i, s', Advance(e, i, s')); }
  }

  /** The round up to which a party has been. */
  function Reached(s: Party): int {
    if s.started then s.round else 0
  }

  /** What party i sends in one event. */
  ghost predicate EventSends(e: Env, s: Party, v: Event, o: Outcome) {
    && (forall q :: Broadcast(e, v.i, q) in o.sent <==> Reached(s) < q <= Reached(o.party) && !e.refuse(v.i, q))
    && (o.claims != [] <==> v.Timeout? || (Reached(s) < Reached(o.party) && e.refuse(v.i, o.party.round)))
  }

  lemma EventRounds(e: Env, honest: set<nat>, g: Global, v: Event)
    requires ValidEnv(e, honest) && Inv(e, honest, g) && Enabled(e, honest, g, v)
    ensures EventSends(e, g.parties[v.i], v, Reaction(e, g.parties[v.i], v))
  {
    EventSteps(e, honest, g, v);
    assert PartyOk(e, v.i, g.parties[v.i]);
    match v
    case Begin(i) =>
      SendRounds(e, honest, i, IDLE.(started := true, listening := true, status := Signing), Start(e, i));
    case Deliver(i, m) => DeliverRounds(e, honest, i, g.parties[i], m);
    case Timeout(i) =>
    case TrentSays(i, answer, seals) => AnswerKeeps(e, honest, i, g.parties[i], answer, seals);
  }

  /** Party i has sent exactly the rounds up to its own that its user did not refuse. */
  ghost predicate SentSoFar(e: Env, g: Global, i: nat)
    requires i < |g.parties|
  {
    forall q :: Broadcast(e, i, q) in g.net <==> 1 <= q <= Reached(g.parties[i]) && !e.refuse(i, q)
  }

  lemma StepSent(e: Env, honest: set<nat>, g: Global, v: Event, i: nat)
    requires ValidEnv(e, honest) && Inv(e, honest, g) && i in honest && i < e.n && SentSoFar(e, g, i)
    ensures SentSoFar(e, Next(e, honest, g, v), i)
  {
    if Enabled(e, honest, g, v) {
      var o := Reaction(e, g.parties[v.i], v);
      EventSteps(e, honest, g, v);
      EventRounds(e, honest, g, v);
      assert PartyOk(e, v.i, g.parties[v.i]);
      OthersSilent(e, i, v, o);
      assert Next(e, honest, g, v).net == g.net + set m | m in o.sent;
    }
  }

  /** Nobody sends in the name of somebody else. */
  lemma OthersSilent(e: Env, i: nat, v: Event, o: Outcome)
    requires forall m :: m in o.sent ==> m == Broadcast(e, v.i, m.round)
    ensures v.i != i ==> forall q :: Broadcast(e, i, q) !in o.sent
  {
    forall q | Broadcast(e, i, q) in o.sent ensures v.i == i {
      assert Broadcast(e, i, q).from == i;
    }
  }

  /** In every run, whoever else is honest and whatever Trent says. */
  lemma SentExactly(e: Env, honest: set<nat>, events: seq<Event>, i: nat, q: int)
    requires ValidEnv(e, honest) && i in honest && i < e.n
    ensures var g := Run(e, honest, events);
            Broadcast(e, i, q) in g.net <==> 1 <= q <= Reached(g.parties[i]) && !e.refuse(i, q)
  {
    RunSent(e, honest, events, i);
  }

  lemma {:induction false} RunSent(e: Env, honest: set<nat>, events: seq<Event>, i: nat)
    requires ValidEnv(e, honest) && i in honest && i < e.n
    ensures SentSoFar(e, Run(e, honest, events), i)
    decreases |events|
  {
    if events != [] {
      var before := events[..|events| - 1];
      RunSent(e, honest, before, i);
      RunKeeps(e, honest, before);
      StepSent(e, honest, Run(e, honest, before), events[|events| - 1], i);
    }
  }

  /** The clear signatures are out exactly if the party is in the last round and its user did not refuse that one. */
  lemma ClearExactly(e: Env, honest: set<nat>, events: seq<Event>, i: nat)
    requires ValidEnv(e, honest) && i in honest && i < e.n
    ensures var g := Run(e, honest, events);
            ClearSignatures(e, i) in g.net <==> g.parties[i].round == e.n + 2 && !e.refuse(i, e.n + 2)
  {
    SentExactly(e, honest, events, i, e.n + 2);
    RunKeeps(e, honest, events);
    assert PartyOk(e, i, Run(e, honest, events).parties[i]);
  }

  /** Party i gave up waiting at some time. */
  ghost predicate GaveUp(e: Env, honest: set<nat>, events: seq<Event>, i: nat)
    requires i < e.n
    decreases |events|
  {
    events != [] && var before := events[..|events| - 1];
      GaveUp(e, honest, before, i)
      || (events[|events| - 1] == Timeout(i) && Run(e, honest, before).parties[i].started)
  }

  ghost predicate HasClaimed(g: Global, i: nat) {
    exists c :: c in g.claims && c.from == i
  }

  ghost predicate HasRefused(e: Env, s: Party, i: nat) {
    s.started && e.refuse(i, s.round)
  }

  /** What is claimed after an event was claimed before or in it. */
  lemma ClaimsAdded(e: Env, honest: set<nat>, g: Global, v: Event, o: Outcome, i: nat)
    requires ValidEnv(e, honest) && Inv(e, honest, g) && Enabled(e, honest, g, v) && o == Reaction(e, g.parties[v.i], v)
    ensures HasClaimed(Next(e, honest, g, v), i) <==> HasClaimed(g, i) || (v.i == i && o.claims != [])
  {
    EventSteps(e, honest, g, v);
    var g' := Next(e, honest, g, v);
    assert g'.claims == g.claims + set c | c in o.claims;
    forall c | c in o.claims ensures c.from == v.i {
      assert IsClaimOf(e, v.i, o.party, c);
    }
    if o.claims != [] { assert o.claims[0] in g'.claims; }
    if HasClaimed(g, i) {
      var c :| c in g.claims && c.from == i;
      assert c in g'.claims;
    }
  }

  lemma ClaimerStays(e: Env, honest: set<nat>, g: Global, o: Outcome, i: nat)
    requires Inv(e, honest, g) && i in honest && i < e.n && HasClaimed(g, i) && Step(e, honest, g, i, o)
    ensures g.parties[i].started && o.party.started && o.party.round == g.parties[i].round
  {
    var c :| c in g.claims && c.from == i;
    assert ClaimOk(e, honest, g.parties, c);
  }

  lemma StepClaims(e: Env, honest: set<nat>, g: Global, v: Event, i: nat, gaveUp: bool)
    requires ValidEnv(e, honest) && Inv(e, honest, g) && i in honest && i < e.n
    requires HasClaimed(g, i) <==> gaveUp || HasRefused(e, g.parties[i], i)
    ensures var g' := Next(e, honest, g, v);
            HasClaimed(g', i) <==>
              gaveUp || (v == Timeout(i) && g.parties[i].started) || HasRefused(e, g'.parties[i], i)
  {
    if Enabled(e, honest, g, v) {
      var o := Reaction(e, g.parties[v.i], v);
      ClaimsAdded(e, honest, g, v, o, i);
      if v.i == i {
        EventSteps(e, honest, g, v);
        EventRounds(e, honest, g, v);
        if HasClaimed(g, i) { ClaimerStays(e, honest, g, o, i); }
      }
    }
  }

  /** Trent hears of exactly those parties that gave up waiting or whose users refused the round they are in. */
  lemma {:induction false} ClaimedExactly(e: Env, honest: set<nat>, events: seq<Event>, i: nat)
    requires ValidEnv(e, honest) && i in honest && i < e.n
    ensures var g := Run(e, honest, events);
            HasClaimed(g, i) <==> GaveUp(e, honest, events, i) || HasRefused(e, g.parties[i], i)
    decreases |events|
  {
    if events != [] {
      var before := events[..|events| - 1];
      ClaimedExactly(e, honest, before, i);
      RunKeeps(e, honest, before);
      StepClaims(e, honest, Run(e, honest, before), events[|events| - 1], i, GaveUp(e, honest, before, i));
    }
  }

  // ----- parties that have stopped listening -----

  ghost predicate Stopped(s: Party) {
    s.started && !s.listening
  }

  lemma StoppedStep(e: Env, honest: set<nat>, g: Global, v: Event, i: nat)
    requires ValidEnv(e, honest) && Inv(e, honest, g) && i in honest && i < e.n && Stopped(g.parties[i])
    ensures var g' := Next(e, honest, g, v);
            && Stopped(g'.parties[i])
            && forall m: Message :: m.from == i ==> (m in g'.net <==> m in g.net)
  {
    if Enabled(e, honest, g, v) {
      EventSteps(e, honest, g, v);
      var o := Reaction(e, g.parties[v.i], v);
      forall m | m in o.sent ensures m.from == v.i {
        assert m == Broadcast(e, v.i, m.round);
      }
      assert v.i == i ==> o.sent == [];
    }
  }

  /** Whoever has stopped listening never sends the others anything again. */
  lemma {:induction false} StoppedSilent(e: Env, honest: set<nat>, events: seq<Event>, k: nat, i: nat)
    requires ValidEnv(e, honest) && k <= |events| && i in honest && i < e.n
    requires Stopped(Run(e, honest, events[..k]).parties[i])
    ensures Stopped(Run(e, honest, events).parties[i])
    ensures forall m: Message :: m.from == i ==>
              (m in Run(e, honest, events).net <==> m in Run(e, honest, events[..k]).net)
    decreases |events|
  {
    if k == |events| {
      assert events[..k] == events;
    } else {
      var before := events[..|events| - 1];
      assert before[..k] == events[..k];
      StoppedSilent(e, honest, before, k, i);
      RunKeeps(e, honest, before);
      StoppedStep(e, honest, Run(e, honest, before), events[|events| - 1], i);
    }
  }

  /** The first party's clear signature finalizes another party in the middle of its rounds. */
  lemma FirstClearStops(e: Env, i: nat, s: Party)
    requires 1 <= i < e.n && e.clearAccepted(e.clear(0, i)) == Some(true)
    requires e.signed(0, e.clear(0, i), None) == Some(true)
    ensures var sig := e.clear(0, i);
            Notify(e, i, s, ClearSignatures(e, 0)) == Outcome(
              s.(signatures := s.signatures[0 := sig], status := Finalized, listening := false), [], [], true)
  {
    var sig := e.clear(0, i);
    assert ClearSignatures(e, 0).body[i] == Clear(sig);
    assert FinalizedFrom(e, s.signatures[0 := sig], 0, false) == Some(true);
  }

  lemma NotYetClear(e: Env, honest: set<nat>, g: Global, i: nat)
    requires Inv(e, honest, g) && i < e.n && g.parties[i].round < e.n + 2
    ensures ClearSignatures(e, i) !in g.net
  {
    assert ClearSignatures(e, i) in g.net ==> MessageOk(e, honest, g.parties, ClearSignatures(e, i));
  }

  /**
   * A party that hears the first party's clear signatures before it has sent its own is finalized and never sends its
   * own, whatever happens later.
   */
  lemma FinalizedSilent(e: Env, honest: set<nat>, events: seq<Event>, i: nat, later: seq<Event>)
    requires ValidEnv(e, honest) && i in honest && 1 <= i < e.n
    requires e.clearAccepted(e.clear(0, i)) == Some(true) && e.signed(0, e.clear(0, i), None) == Some(true)
    requires var g := Run(e, honest, events);
             g.parties[i].listening && g.parties[i].round < e.n + 2 && (ClearSignatures(e, 0) in g.net || 0 !in honest)
    ensures var heard := events + [Deliver(i, ClearSignatures(e, 0))];
            && Run(e, honest, heard).parties[i].status == Finalized
            && ClearSignatures(e, i) !in Run(e, honest, heard + later).net
  {
    var g, heard := Run(e, honest, events), events + [Deliver(i, ClearSignatures(e, 0))];
    RunKeeps(e, honest, events);
    assert PartyOk(e, i, g.parties[i]);
    FirstClearStops(e, i, g.parties[i]);
    assert heard[..|events|] == events;
    RunKeeps(e, honest, heard);
    NotYetClear(e, honest, Run(e, honest, heard), i);
    assert (heard + later)[..|heard|] == heard;
    StoppedSilent(e, honest, heard + later, |heard|, i);
  }

  /** It can happen at once: a first party that does not wait finalizes another one in round 1. */
  lemma FinalizedInRoundOne(e: Env, honest: set<nat>, i: nat, later: seq<Event>)
    requires ValidEnv(e, honest) && i in honest && 1 <= i < e.n && 0 !in honest && !e.refuse(i, 1)
    requires e.clearAccepted(e.clear(0, i)) == Some(true) && e.signed(0, e.clear(0, i), None) == Some(true)
    ensures var heard := [Begin(i), Deliver(i, ClearSignatures(e, 0))];
            && Run(e, honest, heard).parties[i].status == Finalized && Run(e, honest, heard).parties[i].round == 1
            && ClearSignatures(e, i) !in Run(e, honest, heard + later).net
  {
    var events := [Begin(i)];
    assert events[..0] == [] && Run(e, honest, []) == Init(e);
    var s := Run(e, honest, events).parties[i];
    assert s.listening && s.round == 1;
    FinalizedSilent(e, honest, events, i, later);
    var heard := [Begin(i), Deliver(i, ClearSignatures(e, 0))];
    assert heard == events + [Deliver(i, ClearSignatures(e, 0))] && heard[..1] == events;
    FirstClearStops(e, i, s);
  }
}
