/** Trent's answers to requests about any number of contracts (`Trent.resolve`). */
module TrentService {
  import opened Wrappers
  import opened Identity
  import opened Sigma
  import opened Pcs
  import opened SigmaSigner
  import opened Trent
  import opened TrentSolver

  /** The bytes that both sides hash, which also name the contract for Trent, and the keys of its parties. */
  datatype ContractEntity = ContractEntity(text: string, parties: seq<Key>)

  /** A request after decryption. */
  datatype Letter = Letter(sender: int, round: int, contract: ContractEntity, request: Request, signature: Signature)

  /** Trent's keys, and how a request and the content of an answer are written. */
  datatype Desk = Desk(hash: Hash, keys: KeyPair, written: Request -> string, told: Answer -> string)

  /** One delivery of a letter, with everything left open about it: the iteration order and the random numbers. */
  datatype Delivery = Delivery(letter: Letter, pick: Claims -> Option<Id>, draws: Draws, coins: nat -> (Coins, int))

  /** A solver with the number of parties of the contract it was made for. */
  datatype Case = Case(n: nat, state: State)

  type Cases = map<string, Case>

  /** What comes of a request: nothing, an exception, or an answer to all parties with a seal for each key. */
  datatype Outcome = Silent | Failed | Answered(id: string, answer: Answer, seals: map<int, Signature>)

  /** The message that a promise of a round signs. */
  function RoundText(text: string, round: int): string {
    text + ToString(round)
  }

  /** What is signed for one round is signed for no other round, and is not the contract itself. */
  lemma RoundTextExactly(text: string, q: int, q': int)
    ensures RoundText(text, q) == RoundText(text, q') <==> q == q'
    ensures RoundText(text, q) != text
  {
    assert RoundText(text, q)[|text|..] == ToString(q) && RoundText(text, q')[|text|..] == ToString(q');
    ToStringInjective(q, q');
    assert |RoundText(text, q)| > |text|;
  }

  function SenderKey(t: KeyPair, y: int): Key {
    Key(t.pub.p, t.pub.g, y)
  }

  /** The promises are checked for rounds from 1 on. */
  function RowAccepted(d: Desk, l: Letter): Option<bool> {
    if l.round <= 0 then Some(true)
    else match l.request
      case Abort => None
      case Promises(row) => ClaimAccepted(d.hash, d.keys, RoundText(l.contract.text, l.round), row)
  }

  function SenderSigned(d: Desk, l: Letter): Option<bool> {
    Verify(d.hash, Some(SenderKey(d.keys, l.sender)), Some(d.keys.pub), d.written(l.request), l.signature)
  }

  function Admitted(d: Desk, l: Letter): Option<bool> {
    var verifiedOr :- RowAccepted(d, l);
    var signed :- SenderSigned(d, l);
    Some(signed && verifiedOr)
  }

  function CaseFor(cases: Cases, c: ContractEntity): Case {
    if c.text in cases then cases[c.text] else Case(|c.parties|, FRESH)
  }

  /** The seals of the first k parties. */
  function Collect(parties: seq<Key>, seal: (nat, Key) -> Option<Signature>, k: nat): Option<map<int, Signature>>
    requires k <= |parties|
  {
    if k == 0 then Some(map[])
    else
      var before :- Collect(parties, seal, k - 1);
      var last :- seal(k - 1, parties[k - 1]);
      Some(before[parties[k - 1].y := last])
  }

  /** Trent's signature on an answer for one party. */
  function Seal(d: Desk, receiver: Key, text: string, coins: (Coins, int)): Option<Signature> {
    Sign(d.hash, d.keys, Some(d.keys.pub), Some(receiver), text, coins.0, coins.1)
  }

  /** The seal of the k-th party. */
  function Sealing(d: Desk, text: string, coins: nat -> (Coins, int)): (nat, Key) -> Option<Signature> {
    (k: nat, receiver: Key) => Seal(d, receiver, text, coins(k))
  }

  function Seals(d: Desk, parties: seq<Key>, text: string, coins: nat -> (Coins, int)): Option<map<int, Signature>> {
    Collect(parties, Sealing(d, text, coins), |parties|)
  }

  function Send(d: Desk, v: Delivery, answer: Option<Answer>): Outcome {
    if answer.None? then Failed
    else if answer.value.SenderDishonest? then Answered(v.letter.contract.text, answer.value, map[])
    else match Seals(d, v.letter.contract.parties, d.told(answer.value), v.coins)
      case None => Failed
      case Some(seals) => Answered(v.letter.contract.text, answer.value, seals)
  }

  function CallOf(v: Delivery): Call {
    Call(v.letter.request, v.letter.round, ToString(v.letter.sender), v.pick, v.draws)
  }

  function Answering(d: Desk, c: Case, v: Delivery): (Case, Option<Answer>) {
    var (state, answer) := Resolve(d.keys, c.n, c.state, CallOf(v));
    (Case(c.n, state), answer)
  }

  /** `resolve`: a solver is made for a new contract, and stays even if it throws. */
  function Handle(d: Desk, cases: Cases, v: Delivery): (Cases, Outcome) {
    match Admitted(d, v.letter)
    case None => (cases, Failed)
    case Some(false) => (cases, Silent)
    case Some(true) =>
      var (c, answer) := Answering(d, CaseFor(cases, v.letter.contract), v);
      (cases[v.letter.contract.text := c], Send(d, v, answer))
  }

  // ----- the server object -----

  class Service {
    const desk: Desk
    const server: TrentServer
    var solvers: map<string, Solver>

    ghost predicate Valid()
      reads this
    {
      && server.hash == desk.hash && server.keys == desk.keys
      && (forall id :: id in solvers ==> solvers[id].trent == server)
      && (forall id, id' :: id in solvers && id' in solvers && solvers[id] == solvers[id'] ==> id == id')
    }

    ghost function Now(): Cases
      reads this, set id | id in solvers :: solvers[id]
    {
      map id | id in solvers :: Case(solvers[id].n, solvers[id].Now())
    }

    constructor (desk: Desk)
      ensures Valid() && this.desk == desk && Now() == map[] && fresh(server)
    {
      this.desk := desk;
      server := new TrentServer(desk.hash, desk.keys);
      solvers := map[];
    }

    method Admits(l: Letter) returns (r: Option<bool>)
      requires Valid()
      ensures r == Admitted(desk, l)
    {
      var verifiedOr := Some(true);
      if l.round > 0 {
        if l.request.Abort? { return None; }
        verifiedOr := server.CheckClaim(RoundText(l.contract.text, l.round), l.request.row);
        if verifiedOr.None? { return None; }
      }
      var s := new Signer(desk.hash, desk.keys);
      s.receiverK, s.trentK := Some(SenderKey(desk.keys, l.sender)), Some(desk.keys.pub);
      var signed := s.CheckSignature(desk.written(l.request), l.signature);
      if signed.None? { return None; }
      return Some(signed.value && verifiedOr.value);
    }

    method SealFor(s: Signer, receiver: Key, text: string, coins: (Coins, int)) returns (seal: Option<Signature>)
      requires s.hash == desk.hash && s.key == desk.keys && s.trentK == Some(desk.keys.pub)
      modifies s`receiverK
      ensures seal == Seal(desk, receiver, text, coins)
    {
      s.receiverK := Some(receiver);
      seal := s.MakeSignature(text, coins.0, coins.1);
    }

    method SealAll(parties: seq<Key>, text: string, coins: nat -> (Coins, int))
      returns (seals: Option<map<int, Signature>>)
      ensures seals == Seals(desk, parties, text, coins)
    {
      var all := map[];
      var s := new Signer(desk.hash, desk.keys);
      s.trentK := Some(desk.keys.pub);
      ghost var sealing := Sealing(desk, text, coins);
      for k := 0 to |parties|
        invariant s.trentK == Some(desk.keys.pub)
        invariant Collect(parties, sealing, k) == Some(all)
      {
        var seal := SealFor(s, parties[k], text, coins(k));
        Collected(parties, sealing, k, all, seal);
        if seal.None? { return None; }
        all := all[parties[k].y := seal.value];
      }
      return Some(all);
    }

    method SolverFor(c: ContractEntity) returns (s: Solver)
      requires Valid()
      modifies this`solvers
      ensures Valid() && c.text in solvers && s == solvers[c.text] && s.trent == server
      ensures Case(s.n, s.Now()) == CaseFor(old(Now()), c)
      ensures Now() == old(Now())[c.text := CaseFor(old(Now()), c)]
      ensures if c.text in old(solvers) then s == old(solvers[c.text]) else fresh(s)
    {
      if c.text !in solvers {
        var solver := new Solver(server, |c.parties|);
        solvers := solvers[c.text := solver];
      }
      s := solvers[c.text];
    }

    /** No other solver changes. */
    method Ask(s: Solver, v: Delivery, ghost before: Case) returns (answer: Option<Answer>)
      requires Valid() && v.letter.contract.text in solvers && solvers[v.letter.contract.text] == s
      requires before == Case(s.n, s.Now())
      modifies s, server`eph
      ensures Valid() && Now() == old(Now())[v.letter.contract.text := Answering(desk, before, v).0]
      ensures answer == Answering(desk, before, v).1
    {
      answer := s.ResolveT(CallOf(v));
    }

    method Decide(v: Delivery) returns (answer: Option<Answer>)
      requires Valid()
      modifies this`solvers, server`eph, set id | id in solvers :: solvers[id]
      ensures Valid()
      ensures var (c, a) := Answering(desk, CaseFor(old(Now()), v.letter.contract), v);
              Now() == old(Now())[v.letter.contract.text := c] && answer == a
    {
      ghost var before := CaseFor(Now(), v.letter.contract);
      Overwrite(Now(), v.letter.contract.text, before, Answering(desk, before, v).0);
      var s := SolverFor(v.letter.contract);
      answer := Ask(s, v, before);
    }

    method Reply(v: Delivery, answer: Option<Answer>) returns (reply: Outcome)
      ensures reply == Send(desk, v, answer)
    {
      if answer.None? { return Failed; }
      if answer.value.SenderDishonest? { return Answered(v.letter.contract.text, answer.value, map[]); }
      var seals := SealAll(v.letter.contract.parties, desk.told(answer.value), v.coins);
      if seals.None? { return Failed; }
      return Answered(v.letter.contract.text, answer.value, seals.value);
    }

    method ResolveLetter(v: Delivery) returns (reply: Outcome)
      requires Valid()
      modifies this`solvers, server`eph, set id | id in solvers :: solvers[id]
      ensures Valid() && (Now(), reply) == Handle(desk, old(Now()), v)
    {
      var admitted := Admits(v.letter);
      if admitted.None? { return Failed; }
      if !admitted.value { return Silent; }
      var answer := Decide(v);
      ghost var now := Now();
      reply := Reply(v, answer);
      assert Now() == now;
    }
  }

  /** When every party can be sealed for, every party is, and all seals are good ones. */
  lemma {:induction false} CollectGood(parties: seq<Key>, seal: (nat, Key) -> Option<Signature>,
                                       good: Signature -> bool, k: nat)
    requires k <= |parties|
    requires forall j: nat :: j < k ==> seal(j, parties[j]).Some? && good(seal(j, parties[j]).value)
    ensures var seals := Collect(parties, seal, k);
            && seals.Some?
            && (forall y :: y in seals.value ==> good(seals.value[y]))
            && forall j :: 0 <= j < k ==> parties[j].y in seals.value
  {
    if k > 0 { CollectGood(parties, seal, good, k - 1); }
  }

  lemma Overwrite(cases: Cases, id: string, c: Case, c': Case)
    ensures cases[id := c][id := c'] == cases[id := c']
  {
  }

  /** One more seal, or the end of it. */
  lemma Collected(parties: seq<Key>, seal: (nat, Key) -> Option<Signature>, k: nat, all: map<int, Signature>,
                  next: Option<Signature>)
    requires k < |parties| && Collect(parties, seal, k) == Some(all) && next == seal(k, parties[k])
    ensures if next.Some? then Collect(parties, seal, k + 1) == Some(all[parties[k].y := next.value])
            else Collect(parties, seal, |parties|).None?
  {
    if next.None? { CollectFails(parties, seal, k + 1, |parties|); }
  }

  lemma {:induction false} CollectFails(parties: seq<Key>, seal: (nat, Key) -> Option<Signature>, k: nat, n: nat)
    requires k <= n <= |parties| && Collect(parties, seal, k).None?
    ensures Collect(parties, seal, n).None?
  {
    if k < n { CollectFails(parties, seal, k, n - 1); }
  }

  // ----- over all sequences of requests -----

  /** The solvers and what came of each request. */
  function Run(d: Desk, deliveries: seq<Delivery>): (Cases, seq<Outcome>)
    decreases |deliveries|
  {
    if deliveries == [] then (map[], [])
    else
      var last := |deliveries| - 1;
      var (cases, outcomes) := Run(d, deliveries[..last]);
      var (cases', outcome) := Handle(d, cases, deliveries[last]);
      (cases', outcomes + [outcome])
  }

  ghost predicate SolversOk(cases: Cases) {
    forall id :: id in cases ==> TrentSolver.Inv(cases[id].state)
  }

  /** The trace that an answer leaves in the solver of its contract. */
  ghost predicate Remembered(cases: Cases, o: Outcome) {
    o.Answered? ==>
      && o.id in cases
      && if o.answer.Resolved? then !cases[o.id].state.optimistic
         else cases[o.id].state.optimistic && cases[o.id].state.claims != []
  }

  /** One request keeps all solvers in order, leaves a trace if it is answered, and keeps the traces of all others. */
  lemma HandleKeeps(d: Desk, cases: Cases, v: Delivery)
    requires SolversOk(cases)
    ensures var (cases', outcome) := Handle(d, cases, v);
            && SolversOk(cases') && Remembered(cases', outcome)
            && forall o :: Remembered(cases, o) ==> Remembered(cases', o)
  {
    var c := CaseFor(cases, v.letter.contract);
    StepKeeps(d.keys, c.n, c.state, CallOf(v));
  }

  lemma {:induction false} RunKeeps(d: Desk, deliveries: seq<Delivery>)
    ensures var (cases, outcomes) := Run(d, deliveries);
            && SolversOk(cases) && |outcomes| == |deliveries|
            && forall i :: 0 <= i < |outcomes| ==> Remembered(cases, outcomes[i])
    decreases |deliveries|
  {
    if deliveries != [] {
      var last := |deliveries| - 1;
      RunKeeps(d, deliveries[..last]);
      HandleKeeps(d, Run(d, deliveries[..last]).0, deliveries[last]);
    }
  }

  /**
   * Whatever requests arrive from whomever about whichever contracts: no contract is ever both resolved and not, as
   * far as answers leave Trent.
   */
  lemma OneVerdict(d: Desk, deliveries: seq<Delivery>, i: nat, j: nat)
    requires var outcomes := Run(d, deliveries).1;
             && i < |outcomes| && j < |outcomes| && outcomes[i].Answered? && outcomes[j].Answered?
             && outcomes[i].id == outcomes[j].id
    ensures var outcomes := Run(d, deliveries).1;
            outcomes[i].answer.Resolved? <==> outcomes[j].answer.Resolved?
  {
    RunKeeps(d, deliveries);
  }

  lemma {:induction false} TracesStay(d: Desk, deliveries: seq<Delivery>, later: seq<Delivery>, o: Outcome)
    requires Remembered(Run(d, deliveries).0, o)
    ensures Remembered(Run(d, deliveries + later).0, o)
    decreases |later|
  {
    if later == [] {
      assert deliveries + later == deliveries;
    } else {
      var before, v := later[..|later| - 1], later[|later| - 1];
      TracesStay(d, deliveries, before, o);
      AppendLast(deliveries, later);
      LastKeepsTrace(d, deliveries + before, v, deliveries + later, o);
    }
  }

  lemma LastKeepsTrace(d: Desk, before: seq<Delivery>, v: Delivery, all: seq<Delivery>, o: Outcome)
    requires all == before + [v] && Remembered(Run(d, before).0, o)
    ensures Remembered(Run(d, all).0, o)
  {
    assert all[..|all| - 1] == before;
    RunKeeps(d, before);
    HandleKeeps(d, Run(d, before).0, v);
  }

  /** Once the solver of a contract is not optimistic, the contract has no other answers than resolved ones. */
  lemma PessimisticForGood(d: Desk, deliveries: seq<Delivery>, k: nat, id: string, i: nat)
    requires k <= |deliveries| && i < |Run(d, deliveries).1|
    requires id in Run(d, deliveries[..k]).0 && !Run(d, deliveries[..k]).0[id].state.optimistic
    ensures var o := Run(d, deliveries).1[i];
            o.Answered? && o.id == id ==> o.answer.Resolved?
  {
    assert deliveries == deliveries[..k] + deliveries[k..];
    TracesStay(d, deliveries[..k], deliveries[k..], Answered(id, Resolved([]), map[]));
    RunKeeps(d, deliveries);
  }

  /**
   * A resolved answer to a claim of round 1 or later holds, for every party, a promise on that contract and round that
   * verifies and names somebody whose identification Trent could decrypt, under Trent's own key.
   */
  lemma ResolvedIsGenuine(d: Desk, cases: Cases, v: Delivery, k: nat)
    requires v.letter.round >= 1
    requires var o := Handle(d, cases, v).1;
             o.Answered? && o.answer.Resolved? && k < CaseFor(cases, v.letter.contract).n
    ensures var signatures := Handle(d, cases, v).1.answer.signatures;
            && |signatures| == CaseFor(cases, v.letter.contract).n
            && OrVerifies(d.hash, signatures[k].pcs, RoundText(v.letter.contract.text, v.letter.round)) == Some(true)
            && VerifiesRes(d.keys, signatures[k].pcs.ands, false) == Some(true)
            && signatures[k].trentK == d.keys.pub
  {
    var l, c := v.letter, CaseFor(cases, v.letter.contract);
    ResolvedIsToken(d.keys, c.n, c.state, CallOf(v));
    var row := l.request.row;
    assert TokenSignature(d.keys, row, k, v.draws).Some?;
    AcceptedExactly(d.hash, d.keys, RoundText(l.contract.text, l.round), row);
    assert EntryAccepted(d.hash, d.keys, RoundText(l.contract.text, l.round), row[k]);
  }

  /** What a solver resolves with is the token of the request. */
  lemma ResolvedIsToken(t: KeyPair, n: nat, s: State, call: Call)
    requires var answer := Resolve(t, n, s, call).1; answer.Some? && answer.value.Resolved?
    ensures TokenFor(t, n, call) == Some(Resolve(t, n, s, call).1.value.signatures)
  {
    EarlierKeeps(s, call, 0);
    OwnKeeps(s, call, 0);
    LaterKeeps(n, s, call, call.round + 1);
  }
}
