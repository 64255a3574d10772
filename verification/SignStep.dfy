/** One party's side of the signing protocol: the signing step, the resolving step, and the contract they share. */
module SignStep {
  import opened Wrappers
  import opened Sigma
  import opened SigmaSigner
  import opened Trent
  import opened TrentSolver

  /** `Status`; the first one stands for a party that has not reached the signing step. */
  datatype Status = Nowhere | Signing | Finalized | Cancelled | Resolving

  /** What a message holds for one receiver. */
  datatype Content = Promise(promise: Or) | Clear(signature: Signature) | Garbage

  /** A broadcast: the round, and one content for every party. */
  datatype Message = Message(from: nat, round: int, body: map<nat, Content>)

  /** What a party sends to Trent: its last complete row, or the word ABORT. */
  datatype Claim = Claim(from: nat, round: int, request: Request)

  /** The promises received: `roundReceived[q][k]` is present when it is not null. */
  type Rows = map<(int, nat), Or>

  /** Whose signature the resolving step expects when it verifies (`receiverK`). */
  datatype Expected = Anyone | OfTrent | OfParty(k: nat)

  /**
   * n parties and everything they compute: the promise of i to k in round q, its test, the clear signature of i for k,
   * its test, the test of a signature as that of party k on the contract (`None`) or on the contract and a round, the
   * test of the seal on Trent's answer, and whether the user behind i refuses when round q is about to be sent.
   */
  datatype Env = Env(
    n: nat,
    promise: (nat, int, nat) -> Or,
    accepts: (int, Or) -> Option<bool>,
    clear: (nat, nat) -> Signature,
    clearAccepted: Signature -> Option<bool>,
    signed: (nat, Signature, Option<int>) -> Option<bool>,
    sealed: (Expected, Answer, Signature) -> Option<bool>,
    refuse: (nat, int) -> bool)

  datatype Party = Party(started: bool, listening: bool, round: int, rows: Rows, status: Status,
                         signatures: map<nat, Signature>, expects: Expected)

  const IDLE := Party(false, false, 1, map[], Nowhere, map[], Anyone)

  /** What one call does: the new state, what is sent to the parties and to Trent, and whether it returned. */
  datatype Outcome = Outcome(party: Party, sent: seq<Message>, claims: seq<Claim>, ok: bool)

  // ----- the contract -----

  /** Some round from q to n + 1 for which the signature is that of party k. */
  function SignedInSomeRound(e: Env, k: nat, sig: Signature, q: int): Option<bool>
    decreases e.n + 2 - q
  {
    if q >= e.n + 2 then Some(false)
    else
      var good :- e.signed(k, sig, Some(q));
      if good then Some(true) else SignedInSomeRound(e, k, sig, q + 1)
  }

  /** `isFinalized` from party k on: a clear signature of any party already decides. */
  function FinalizedFrom(e: Env, signatures: map<nat, Signature>, k: nat, result: bool): Option<bool>
    decreases e.n - k
  {
    if k >= e.n then Some(result)
    else if k !in signatures then Some(false)
    else
      var clear :- e.signed(k, signatures[k], None);
      if clear then Some(true)
      else
        var late :- SignedInSomeRound(e, k, signatures[k], 1);
        FinalizedFrom(e, signatures, k + 1, result || late)
  }

  /** `addSignature`: the signature stays even when the test that follows throws. */
  function AddSignature(e: Env, s: Party, k: nat, sig: Signature): (Party, bool) {
    var s' := s.(signatures := s.signatures[k := sig]);
    match FinalizedFrom(e, s'.signatures, 0, false)
    case None => (s', false)
    case Some(done) => (if done then s'.(status := Finalized) else s', true)
  }

  // ----- sending -----

  function RowOf(e: Env, rows: Rows, q: int): (row: Row)
    ensures |row| == e.n
    ensures forall k :: 0 <= k < e.n ==> row[k] == if (q, k) in rows then Some(rows[(q, k)]) else None
  {
    seq(e.n, k requires 0 <= k < e.n => if (q, k) in rows then Some(rows[(q, k)]) else None)
  }

  /** The resolving step: stop listening and send Trent the claim of the round before. */
  function SendClaim(e: Env, me: nat, s: Party): Outcome {
    var request := if s.round <= 1 then Abort else Request.Promises(RowOf(e, s.rows, s.round - 1));
    Outcome(s.(status := Resolving, listening := false, expects := OfTrent), [],
            [Claim(me, s.round - 1, request)], true)
  }

  function PromisesOf(e: Env, me: nat, q: int): Message {
    Message(me, q, map k | 0 <= k < e.n :: Promise(e.promise(me, q, k)))
  }

  function ClearSignatures(e: Env, me: nat): Message {
    Message(me, e.n + 2, map k | 0 <= k < e.n :: Clear(e.clear(me, k)))
  }

  /** `sendMessage` for the current round. */
  function SendMessage(e: Env, me: nat, s: Party): Outcome {
    if e.refuse(me, s.round) then SendClaim(e, me, s)
    else if s.round == e.n + 2 then
      var (s', ok) := AddSignature(e, s, me, e.clear(me, me));
      Outcome(s', if ok then [ClearSignatures(e, me)] else [], [], ok)
    else
      Outcome(s.(rows := s.rows[(s.round, me) := e.promise(me, s.round, me)]), [PromisesOf(e, me, s.round)], [], true)
  }

  /** `setListenerOnTrent` and `sign`: both steps are set up and round 1 is sent. */
  function Start(e: Env, me: nat): Outcome {
    SendMessage(e, me, IDLE.(started := true, listening := true, status := Signing))
  }

  // ----- receiving -----

  function StoreClear(e: Env, s: Party, from: nat, sig: Signature): (Party, bool) {
    match e.clearAccepted(sig)
    case None => (s, false)
    case Some(false) => (s, true)
    case Some(true) =>
      var (s', ok) := AddSignature(e, s, from, sig);
      (if ok && FinalizedFrom(e, s'.signatures, 0, false) == Some(true) then s'.(listening := false) else s', ok)
  }

  function StorePromise(e: Env, s: Party, from: nat, q: int, p: Or): (Party, bool) {
    match e.accepts(q, p)
    case None => (s, false)
    case Some(good) => (if good then s.(rows := s.rows[(q, from) := p]) else s, true)
  }

  /** `verifyAndStoreSignature`. */
  function Store(e: Env, me: nat, s: Party, m: Message): (Party, bool) {
    if m.from >= e.n then (s, false)
    else if m.from == me then (s, true)
    else if m.round == e.n + 2 then
      if me !in m.body then (s, false)
      else if m.body[me].Clear? then StoreClear(e, s, m.from, m.body[me].signature)
      else (s, true)
    else if !(0 <= m.round <= e.n + 1) then (s, false)
    else if (m.round, m.from) in s.rows then (s, true)
    else if me !in m.body || !m.body[me].Promise? then (s, false)
    else StorePromise(e, s, m.from, m.round, m.body[me].promise)
  }

  predicate ClaimFormed(e: Env, s: Party) {
    s.round < e.n + 2 ==> forall k :: 0 <= k < e.n ==> (s.round, k) in s.rows
  }

  /** An outcome after something else was sent. */
  function After(sent: seq<Message>, claims: seq<Claim>, o: Outcome): Outcome {
    Outcome(o.party, sent + o.sent, claims + o.claims, o.ok)
  }

  lemma AfterTwice(sent: seq<Message>, claims: seq<Claim>, sent': seq<Message>, claims': seq<Claim>, o: Outcome)
    ensures After(sent, claims, After(sent', claims', o)) == After(sent + sent', claims + claims', o)
  {
    assert sent + (sent' + o.sent) == (sent + sent') + o.sent;
    assert claims + (claims' + o.claims) == (claims + claims') + o.claims;
  }

  /** The loop that goes on as long as the current round is complete. */
  function Advance(e: Env, me: nat, s: Party): Outcome
    decreases e.n + 2 - s.round
  {
    if s.round <= e.n + 1 && ClaimFormed(e, s) && s.status == Signing then
      var first := SendMessage(e, me, s.(round := s.round + 1));
      if !first.ok then first
      else
        After(first.sent, first.claims, Advance(e, me, first.party))
    else Outcome(s, [], [], true)
  }

  lemma AdvanceUnfolds(e: Env, i: nat, s: Party, first: Outcome, rest: Outcome)
    requires s.round <= e.n + 1 && ClaimFormed(e, s) && s.status == Signing
    requires first == SendMessage(e, i, s.(round := s.round + 1)) && first.ok && rest == Advance(e, i, first.party)
    ensures Advance(e, i, s) == After(first.sent, first.claims, rest)
  {
  }

  lemma AdvanceOnce(e: Env, me: nat, s: Party, sent: seq<Message>, claims: seq<Claim>, log: Outcome)
    requires s.round <= e.n + 1 && ClaimFormed(e, s) && s.status == Signing
    requires log == After(sent, claims, SendMessage(e, me, s.(round := s.round + 1)))
    ensures After(sent, claims, Advance(e, me, s)) ==
            if log.ok then After(log.sent, log.claims, Advance(e, me, log.party)) else log
  {
    var first := SendMessage(e, me, s.(round := s.round + 1));
    if first.ok { AfterTwice(sent, claims, first.sent, first.claims, Advance(e, me, first.party)); }
  }

  function Notify(e: Env, me: nat, s: Party, m: Message): Outcome {
    var (s', ok) := Store(e, me, s, m);
    if ok then Advance(e, me, s') else Outcome(s', [], [], false)
  }

  // ----- Trent's answer -----

  /** The three rounds a party tests: its own and the two before. */
  function SignedInThreeRounds(e: Env, k: nat, sig: Signature, round: int): Option<bool> {
    var now :- e.signed(k, sig, Some(round));
    if now then Some(true)
    else
      var before :- e.signed(k, sig, Some(round - 1));
      if before then Some(true) else e.signed(k, sig, Some(round - 2))
  }

  /** The loop over the signatures of the answer, from party k on. */
  function AcceptAll(e: Env, s: Party, signatures: seq<Signature>, k: nat): (Party, bool)
    decreases |signatures| - k
  {
    if k >= |signatures| then (s, true)
    else if k >= e.n then (s, false)
    else
      var s' := s.(expects := OfParty(k));
      match SignedInThreeRounds(e, k, signatures[k], s.round)
      case None => (s', false)
      case Some(false) => AcceptAll(e, s', signatures, k + 1)
      case Some(true) =>
        var (s'', ok) := AddSignature(e, s', k, signatures[k]);
        if ok then AcceptAll(e, s'', signatures, k + 1) else (s'', false)
  }

  /** The end of a resolved answer. */
  function Conclude(e: Env, s: Party): (Party, bool) {
    match FinalizedFrom(e, s.signatures, 0, false)
    case None => (s, false)
    case Some(done) => (if done then s.(status := Finalized, listening := false) else s, true)
  }

  /** `notify` of the resolving step, with the seal for each party. */
  function OnAnswer(e: Env, me: nat, s: Party, answer: Answer, seals: map<nat, Signature>): (Party, bool) {
    if answer.SenderDishonest? then (s, true)
    else if me !in seals then (s, false)
    else match e.sealed(s.expects, answer, seals[me])
      case None => (s, false)
      case Some(false) => (s, true)
      case Some(true) =>
        if answer.Resolved? then
          var (s', ok) := AcceptAll(e, s, answer.signatures, 0);
          if ok then Conclude(e, s') else (s', false)
        else (s.(status := Cancelled, listening := false), true)
  }

  // ----- the objects -----

  class Contract {
    const e: Env
    var trentKnown: bool
    var status: Status
    var signatures: map<nat, Signature>

    constructor (e: Env)
      ensures this.e == e && !trentKnown && status == Nowhere && signatures == map[]
    {
      this.e, trentKnown, status, signatures := e, false, Nowhere, map[];
    }

    method SetTrentKey()
      modifies `trentKnown
      ensures trentKnown
    {
      trentKnown := true;
    }

    /** Without Trent's key nothing counts as finalized. */
    method IsFinalized() returns (r: Option<bool>)
      ensures r == if trentKnown then FinalizedFrom(e, signatures, 0, false) else Some(false)
    {
      if !trentKnown { return Some(false); }
      var result := false;
      for k := 0 to e.n
        invariant FinalizedFrom(e, signatures, k, result) == FinalizedFrom(e, signatures, 0, false)
      {
        if k !in signatures { return Some(false); }
        var sig := signatures[k];
        var clear := e.signed(k, sig, None);
        if clear.None? || clear.value { return clear; }
        var late := SignedLate(k, sig);
        if late.None? { return None; }
        result := result || late.value;
      }
      return Some(result);
    }

    method SignedLate(k: nat, sig: Signature) returns (r: Option<bool>)
      ensures r == SignedInSomeRound(e, k, sig, 1)
    {
      for q := 1 to e.n + 2
        invariant SignedInSomeRound(e, k, sig, q) == SignedInSomeRound(e, k, sig, 1)
      {
        var good := e.signed(k, sig, Some(q));
        if good.None? || good.value { return good; }
      }
      return Some(false);
    }

    method Add(k: nat, sig: Signature) returns (ok: bool)
      modifies `status, `signatures
      ensures !trentKnown ==> ok && status == old(status) && signatures == old(signatures)[k := sig]
      ensures trentKnown ==> forall s: Party :: s.status == old(status) && s.signatures == old(signatures) ==>
                AddSignature(e, s, k, sig) == (s.(status := status, signatures := signatures), ok)
    {
      signatures := signatures[k := sig];
      var done := IsFinalized();
      if done.None? { return false; }
      if done.value { status := Finalized; }
      return true;
    }
  }

  /** A party: the signing step with its matrix of promises, the resolving step, and the contract. */
  class Participant {
    const e: Env
    const me: nat
    const contract: Contract
    const roundReceived: array2<Option<Or>>
    var started: bool
    var listening: bool
    var round: int
    var expects: Expected
    var outbox: seq<Message>
    var claims: seq<Claim>

    ghost predicate Valid()
      reads this, contract
    {
      contract.e == e && contract.trentKnown && me < e.n
      && roundReceived.Length0 == e.n + 2 && roundReceived.Length1 == e.n
      && 1 <= round <= e.n + 2
    }

    ghost function Received(): Rows
      reads roundReceived
    {
      map q: int, k: nat | 0 <= q < roundReceived.Length0 && 0 <= k < roundReceived.Length1
                           && roundReceived[q, k].Some? :: (q, k) := roundReceived[q, k].value
    }

    ghost function Now(): Party
      reads this, contract, roundReceived
    {
      Party(started, listening, round, Received(), contract.status, contract.signatures, expects)
    }

    /** All that can be seen after a call: the party, everything it ever sent, and whether the call returned. */
    ghost function Log(ok: bool): Outcome
      reads this, contract, roundReceived
    {
      Outcome(Now(), outbox, claims, ok)
    }

    constructor (e: Env, me: nat)
      requires me < e.n
      ensures Valid() && fresh(contract) && fresh(roundReceived) && this.e == e && this.me == me
      ensures Now() == IDLE && outbox == [] && claims == []
    {
      this.e, this.me := e, me;
      contract := new Contract(e);
      roundReceived := new Option<Or>[e.n + 2, e.n]((q, k) => None);
      started, listening, round, expects, outbox, claims := false, false, 1, Anyone, [], [];
      new;
      contract.SetTrentKey();
    }

    method SetReceived(q: int, k: nat, p: Or)
      requires Valid() && 0 <= q < e.n + 2 && k < e.n
      modifies roundReceived
      ensures Received() == old(Received())[(q, k) := p]
    {
      roundReceived[q, k] := Some(p);
    }

    method ClaimNow()
      requires Valid()
      modifies this, contract
      ensures Valid() && Log(true) == After(old(outbox), old(claims), SendClaim(e, me, old(Now())))
    {
      contract.status, listening, expects := Resolving, false, OfTrent;
      var request := Abort;
      if round > 1 {
        var row := [];
        for k := 0 to e.n
          invariant |row| == k
          invariant forall j :: 0 <= j < k ==> row[j] == roundReceived[round - 1, j]
        {
          row := row + [roundReceived[round - 1, k]];
        }
        assert row == RowOf(e, Received(), round - 1);
        request := Request.Promises(row);
      }
      claims := claims + [Claim(me, round - 1, request)];
    }

    method Send() returns (ok: bool)
      requires Valid()
      modifies this, contract, roundReceived
      ensures Valid() && Log(ok) == After(old(outbox), old(claims), SendMessage(e, me, old(Now())))
      ensures round == old(round)
    {
      if e.refuse(me, round) {
        ClaimNow();
        return true;
      }
      if round == e.n + 2 {
        ghost var s := Now();
        ok := contract.Add(me, e.clear(me, me));
        assert (Now(), ok) == AddSignature(e, s, me, e.clear(me, me));
        if ok { outbox := outbox + [ClearSignatures(e, me)]; }
      } else {
        SetReceived(round, me, e.promise(me, round, me));
        outbox := outbox + [PromisesOf(e, me, round)];
        ok := true;
      }
    }

    method Begin() returns (ok: bool)
      requires Valid() && Now() == IDLE
      modifies this, contract, roundReceived
      ensures Valid() && Log(ok) == After(old(outbox), old(claims), Start(e, me))
    {
      started, listening, contract.status := true, true, Signing;
      ok := Send();
    }

    method StoreMessage(m: Message) returns (ok: bool)
      requires Valid()
      modifies this, contract, roundReceived
      ensures Valid() && round == old(round) && outbox == old(outbox) && claims == old(claims)
      ensures (Now(), ok) == Store(e, me, old(Now()), m)
    {
      if m.from >= e.n { return false; }
      if m.from == me { return true; }
      if m.round == e.n + 2 {
        if me !in m.body { return false; }
        if !m.body[me].Clear? { return true; }
        ok := StoreClearSignature(m.from, m.body[me].signature);
      } else {
        if !(0 <= m.round <= e.n + 1) { return false; }
        if roundReceived[m.round, m.from].Some? { return true; }
        if me !in m.body || !m.body[me].Promise? { return false; }
        var good := e.accepts(m.round, m.body[me].promise);
        if good.None? { return false; }
        if good.value { SetReceived(m.round, m.from, m.body[me].promise); }
        ok := true;
      }
    }

    method StoreClearSignature(from: nat, sig: Signature) returns (ok: bool)
      requires Valid()
      modifies this, contract
      ensures Valid() && round == old(round) && outbox == old(outbox) && claims == old(claims)
      ensures (Now(), ok) == StoreClear(e, old(Now()), from, sig)
    {
      var accepted := e.clearAccepted(sig);
      if accepted.None? { return false; }
      if !accepted.value { return true; }
      ghost var s := Now();
      ok := contract.Add(from, sig);
      assert (Now(), ok) == AddSignature(e, s, from, sig);
      if !ok { return; }
      var done := contract.IsFinalized();
      if done == Some(true) { contract.status, listening := Finalized, false; }
    }

    method IsClaimFormed() returns (formed: bool)
      requires Valid()
      ensures formed == ClaimFormed(e, Now())
    {
      formed := true;
      if round < e.n + 2 {
        for k := 0 to e.n
          invariant formed <==> forall j :: 0 <= j < k ==> roundReceived[round, j].Some?
        {
          if roundReceived[round, k].None? { formed := false; }
        }
        assert forall k: nat :: k < e.n ==> ((round, k) in Received() <==> roundReceived[round, k].Some?);
      }
    }

    method Listen(m: Message) returns (ok: bool)
      requires Valid()
      modifies this, contract, roundReceived
      ensures Valid() && Log(ok) == After(old(outbox), old(claims), Notify(e, me, old(Now()), m))
    {
      ok := StoreMessage(m);
      if ok { ok := GoOn(); }
    }

    /** Everything that will have been seen when the loop below has run from here. */
    ghost function Ahead(): Outcome
      reads this, contract, roundReceived
    {
      After(outbox, claims, Advance(e, me, Now()))
    }

    method SendNextRound() returns (ok: bool)
      requires Valid() && round <= e.n + 1 && ClaimFormed(e, Now()) && contract.status == Signing
      modifies this, contract, roundReceived
      ensures Valid() && round == old(round) + 1
      ensures if ok then Ahead() == old(Ahead()) else Log(false) == old(Ahead())
    {
      ghost var s, sent, claimed := Now(), outbox, claims;
      round := round + 1;
      ok := Send();
      AdvanceOnce(e, me, s, sent, claimed, Log(ok));
    }

    /** Promises may be there before their round is reached: several rounds can be sent at once. */
    method GoOn() returns (ok: bool)
      requires Valid()
      modifies this, contract, roundReceived
      ensures Valid() && Log(ok) == After(old(outbox), old(claims), Advance(e, me, old(Now())))
    {
      ok := true;
      var claimFormed := IsClaimFormed();
      while round <= e.n + 1 && claimFormed && contract.status == Signing
        invariant Valid() && ok && claimFormed == ClaimFormed(e, Now())
        invariant Ahead() == old(Ahead())
        decreases e.n + 2 - round
      {
        ok := SendNextRound();
        if !ok { return; }
        claimFormed := IsClaimFormed();
      }
    }

    method TestInThreeRounds(k: nat, sig: Signature) returns (r: Option<bool>)
      ensures r == SignedInThreeRounds(e, k, sig, round)
    {
      var now := e.signed(k, sig, Some(round));
      if now != Some(false) { return now; }
      var before := e.signed(k, sig, Some(round - 1));
      if before != Some(false) { return before; }
      return e.signed(k, sig, Some(round - 2));
    }

    method TakeSignatures(signatures: seq<Signature>) returns (ok: bool)
      requires Valid()
      modifies this`expects, contract
      ensures Valid() && (Now(), ok) == AcceptAll(e, old(Now()), signatures, 0)
    {
      for k := 0 to |signatures|
        invariant Valid()
        invariant AcceptAll(e, Now(), signatures, k) == AcceptAll(e, old(Now()), signatures, 0)
      {
        if k >= e.n { return false; }
        expects := OfParty(k);
        var good := TestInThreeRounds(k, signatures[k]);
        if good.None? { return false; }
        if good.value {
          var added := contract.Add(k, signatures[k]);
          if !added { return false; }
        }
      }
      return true;
    }

    method HearTrent(answer: Answer, seals: map<nat, Signature>) returns (ok: bool)
      requires Valid()
      modifies this`expects, this`listening, contract
      ensures Valid() && (Now(), ok) == OnAnswer(e, me, old(Now()), answer, seals)
    {
      if answer.SenderDishonest? { return true; }
      if me !in seals { return false; }
      var genuine := e.sealed(expects, answer, seals[me]);
      if genuine.None? || !genuine.value { return genuine.Some?; }
      if !answer.Resolved? {
        contract.status, listening := Cancelled, false;
        return true;
      }
      ok := TakeSignatures(answer.signatures);
      if !ok { return; }
      var done := contract.IsFinalized();
      if done.None? { return false; }
      if done.value { contract.status, listening := Finalized, false; }
    }
  }
}
