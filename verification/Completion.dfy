/** Without anybody giving up the protocol ends by itself: the runs that never need Trent. */
module Completion {
  import opened Wrappers
  import opened Sigma
  import opened SigmaSigner
  import opened TrentSolver
  import opened SignStep
  import opened SignProtocol

  /** Everybody runs the code, and every clear signature verifies as its signer's. */
  ghost predicate HonestEnv(e: Env) {
    && ValidEnv(e, Everybody(e.n))
    && forall i: nat, k: nat :: i < e.n && k < e.n ==> e.signed(i, e.clear(i, k), None) == Some(true)
  }

  /** Parties that take everything for genuine. */
  function Trusting(n: nat): Env {
    Env(n, (i: nat, q: int, k: nat) => NO_PROMISE, (q: int, o: Or) => Some(true), (i: nat, k: nat) => NO_SIGNATURE,
        (s: Signature) => Some(true), (k: nat, s: Signature, q: Option<int>) => Some(true),
        (x: Expected, a: Answer, s: Signature) => Some(true), (i: nat, q: int) => false)
  }

  /** The assumptions can be met, for any number of parties. */
  lemma AssumptionsMet(n: nat)
    ensures HonestEnv(Trusting(n))
  {
    var e := Trusting(n);
    forall k: nat, sig ensures Testable(e, k, sig) {}
  }

  predicate Active(s: Party) {
    s.status == Signing || s.status == Finalized
  }

  /** All signatures a party holds are clear ones, made for it. */
  ghost predicate OnlyClear(e: Env, i: nat, signatures: map<nat, Signature>) {
    forall k :: k in signatures ==> k < e.n && signatures[k] == e.clear(k, i)
  }

  /** Whether a party is done depends on the signature of the first party alone. */
  ghost predicate CalmParty(e: Env, i: nat, s: Party) {
    && OnlyClear(e, i, s.signatures)
    && (i in s.signatures ==> s.round == e.n + 2)
    && (s.status == Signing ==> 0 !in s.signatures)
    && (s.status == Finalized ==> 0 in s.signatures)
    && (s.status == Signing && s.round == e.n + 2 ==> i in s.signatures)
    && (s.listening ==> Active(s))
  }

  lemma FirstDecides(e: Env, i: nat, signatures: map<nat, Signature>)
    requires HonestEnv(e) && i < e.n && OnlyClear(e, i, signatures)
    ensures FinalizedFrom(e, signatures, 0, false) == Some(0 in signatures)
  {
    if 0 in signatures { assert e.signed(0, e.clear(0, i), None) == Some(true); }
  }

  /** What a call adds: rounds sent one after the other, and at most the signatures of party i itself. */
  ghost predicate CalmCall(e: Env, i: nat, from: int, s: Party, o: Outcome) {
    && CalmParty(e, i, o.party) && o.party.round >= from
    && (Active(o.party) ==> forall q :: from < q <= o.party.round ==> Broadcast(e, i, q) in o.sent)
    && (forall k :: k in o.party.signatures ==> k in s.signatures || k == i)
  }

  lemma CalmSendClear(e: Env, i: nat, s: Party, o: Outcome)
    requires HonestEnv(e) && i < e.n && o == SendMessage(e, i, s) && s.round == e.n + 2 && !e.refuse(i, s.round)
    requires s.status == Signing && OnlyClear(e, i, s.signatures) && 0 !in s.signatures && i !in s.signatures
    ensures CalmCall(e, i, s.round - 1, s, o) && o.party.round == s.round && o.ok
  {
    FirstDecides(e, i, s.signatures[i := e.clear(i, i)]);
  }

  lemma CalmSend(e: Env, i: nat, s: Party, o: Outcome)
    requires HonestEnv(e) && i < e.n && o == SendMessage(e, i, s)
    requires s.status == Signing && OnlyClear(e, i, s.signatures) && 0 !in s.signatures && i !in s.signatures
    ensures CalmCall(e, i, s.round - 1, s, o) && o.party.round == s.round && o.ok
  {
    if e.refuse(i, s.round) {
      assert o == SendClaim(e, i, s);
    } else if s.round == e.n + 2 {
      CalmSendClear(e, i, s, o);
    }
  }

  lemma CalmTwice(e: Env, i: nat, s: Party, o: Outcome, o': Outcome)
    requires CalmCall(e, i, s.round, s, o) && o.party.round == s.round + 1
    requires CalmCall(e, i, o.party.round, o.party, o') && (!Active(o.party) ==> !Active(o'.party))
    ensures CalmCall(e, i, s.round, s, After(o.sent, o.claims, o'))
  {
    var all := After(o.sent, o.claims, o');
    forall q | s.round < q <= all.party.round && Active(all.party) ensures Broadcast(e, i, q) in all.sent {
      if q == s.round + 1 {
        assert Broadcast(e, i, q) in o.sent;
      } else {
        assert Broadcast(e, i, q) in o'.sent;
      }
    }
  }

  /** The first round that the loop sends. */
  lemma CalmSendNext(e: Env, i: nat, s: Party, first: Outcome)
    requires HonestEnv(e) && i < e.n && CalmParty(e, i, s) && s.round <= e.n + 1 && s.status == Signing
    requires first == SendMessage(e, i, s.(round := s.round + 1))
    ensures CalmCall(e, i, s.round, s, first) && first.party.round == s.round + 1 && first.ok
  {
    CalmSend(e, i, s.(round := s.round + 1), first);
  }

  /** What the loop does from a state. */
  ghost predicate CalmLoop(e: Env, i: nat, s: Party, o: Outcome) {
    CalmCall(e, i, s.round, s, o) && (!Active(s) ==> !Active(o.party))
  }

  lemma {:induction false} CalmAdvance(e: Env, i: nat, s: Party, o: Outcome)
    requires HonestEnv(e) && i < e.n && CalmParty(e, i, s) && o == Advance(e, i, s)
    ensures CalmLoop(e, i, s, o)
    decreases e.n + 2 - s.round, 2
  {
    if s.round <= e.n + 1 && ClaimFormed(e, s) && s.status == Signing {
      CalmSendsNext(e, i, s, o);
    } else {
      CalmStopsHere(e, i, s, o);
    }
  }

  lemma CalmStopsHere(e: Env, i: nat, s: Party, o: Outcome)
    requires CalmParty(e, i, s) && o == Outcome(s, [], [], true)
    ensures CalmLoop(e, i, s, o)
  {
  }

  lemma {:induction false} CalmSendsNext(e: Env, i: nat, s: Party, o: Outcome)
    requires HonestEnv(e) && i < e.n && CalmParty(e, i, s) && o == Advance(e, i, s)
    requires s.round <= e.n + 1 && ClaimFormed(e, s) && s.status == Signing
    ensures CalmLoop(e, i, s, o)
    decreases e.n + 2 - s.round, 1
  {
    var first := SendMessage(e, i, s.(round := s.round + 1));
    CalmSendNext(e, i, s, first);
    CalmGoOn(e, i, s, first, Advance(e, i, first.party));
  }

  lemma {:induction false} CalmGoOn(e: Env, i: nat, s: Party, first: Outcome, rest: Outcome)
    requires HonestEnv(e) && i < e.n && rest == Advance(e, i, first.party)
    requires CalmCall(e, i, s.round, s, first) && first.party.round == s.round + 1 <= e.n + 2
    ensures CalmCall(e, i, s.round, s, After(first.sent, first.claims, rest))
    decreases e.n + 2 - s.round, 0
  {
    CalmAdvance(e, i, first.party, rest);
    CalmTwice(e, i, s, first, rest);
  }

  lemma CalmStoreClear(e: Env, i: nat, s: Party, k: nat)
    requires HonestEnv(e) && i < e.n && k < e.n && k != i && CalmParty(e, i, s) && Active(s)
    ensures var (s', ok) := StoreClear(e, s, k, e.clear(k, i));
            && CalmParty(e, i, s') && s'.round == s.round && Active(s')
            && forall j :: j in s'.signatures ==> j in s.signatures || j == k
  {
    FirstDecides(e, i, s.signatures[k := e.clear(k, i)]);
  }

  lemma CalmStore(e: Env, i: nat, s: Party, m: Message)
    requires HonestEnv(e) && i < e.n && CalmParty(e, i, s) && Active(s)
    requires m.from < e.n && 1 <= m.round <= e.n + 2 && m == Broadcast(e, m.from, m.round)
    ensures var (s', ok) := Store(e, i, s, m);
            && CalmParty(e, i, s') && s'.round == s.round && Active(s')
            && forall k :: k in s'.signatures ==> k in s.signatures || (k == m.from && m.round == e.n + 2)
  {
    if m.from != i && m.round == e.n + 2 { CalmStoreClear(e, i, s, m.from); }
  }

  // ----- all parties -----

  /** What holds of party i, and what the others can see of it. */
  ghost predicate CalmAmong(e: Env, parties: seq<Party>, net: set<Message>, i: nat)
    requires i < |parties|
  {
    && CalmParty(e, i, parties[i])
    && (Active(parties[i]) ==>
          parties[i].started && forall q :: 1 <= q <= parties[i].round ==> Broadcast(e, i, q) in net)
    && forall k :: k in parties[i].signatures ==> k < |parties| && parties[k].round == e.n + 2
  }

  ghost predicate AllCalm(e: Env, parties: seq<Party>, net: set<Message>) {
    |parties| == e.n && forall i :: 0 <= i < e.n ==> CalmAmong(e, parties, net, i)
  }

  ghost predicate Calm(e: Env, g: Global) {
    SignProtocol.Inv(e, Everybody(e.n), g) && AllCalm(e, g.parties, g.net)
  }

  /** What party i does in one event of a run without Trent. */
  ghost predicate CalmStep(e: Env, g: Global, i: nat, o: Outcome)
    requires i < |g.parties| == e.n
  {
    var s := g.parties[i];
    && CalmParty(e, i, o.party) && o.party.round >= s.round
    && (Active(o.party) ==>
          && o.party.started && (s.started ==> Active(s))
          && forall q :: (if s.started then s.round else 0) < q <= o.party.round ==> Broadcast(e, i, q) in o.sent)
    && forall k :: k in o.party.signatures ==>
         k in s.signatures || k == i || (k < e.n && g.parties[k].round == e.n + 2)
  }

  lemma CalmBegin(e: Env, g: Global, i: nat)
    requires HonestEnv(e) && Calm(e, g) && i < e.n && !g.parties[i].started
    ensures CalmStep(e, g, i, Start(e, i))
  {
    assert PartyOk(e, i, g.parties[i]);
    var s := IDLE.(started := true, listening := true, status := Signing);
    CalmSend(e, i, s, Start(e, i));
    SendKeeps(e, Everybody(e.n), i, s);
  }

  lemma CalmDeliver(e: Env, g: Global, i: nat, m: Message)
    requires HonestEnv(e) && Calm(e, g) && i < e.n && g.parties[i].listening && m in g.net
    ensures CalmStep(e, g, i, Notify(e, i, g.parties[i], m))
  {
    var s, o := g.parties[i], Notify(e, i, g.parties[i], m);
    assert MessageOk(e, Everybody(e.n), g.parties, m) && PartyOk(e, i, s) && CalmAmong(e, g.parties, g.net, i);
    CalmStore(e, i, s, m);
    StoreKeeps(e, Everybody(e.n), i, s, m);
    var (s', ok) := Store(e, i, s, m);
    if ok {
      CalmAdvance(e, i, s', o);
      AdvanceKeeps(e, Everybody(e.n), i, s', o);
    }
  }

  lemma CalmEvent(e: Env, g: Global, v: Event)
    requires HonestEnv(e) && Calm(e, g) && Enabled(e, Everybody(e.n), g, v) && !v.TrentSays?
    ensures v.i < e.n && CalmStep(e, g, v.i, Reaction(e, g.parties[v.i], v))
  {
    assert CalmAmong(e, g.parties, g.net, v.i);
    match v
    case Begin(i) => CalmBegin(e, g, i);
    case Deliver(i, m) =>
      if m in g.net {
        CalmDeliver(e, g, i, m);
      } else {
        StrangerIgnored(e, i, g.parties[i], m);
        NothingDone(e, g, i, Notify(e, i, g.parties[i], m));
      }
    case Timeout(i) =>
    case TrentSays(_, _, _) =>
  }

  lemma NothingDone(e: Env, g: Global, i: nat, o: Outcome)
    requires Calm(e, g) && i < e.n && g.parties[i].listening && o == Outcome(g.parties[i], [], [], false)
    ensures CalmStep(e, g, i, o)
  {
    assert CalmAmong(e, g.parties, g.net, i);
  }

  /** A sender who is no party makes the call throw. */
  lemma StrangerIgnored(e: Env, i: nat, s: Party, m: Message)
    requires m.from >= e.n
    ensures Notify(e, i, s, m) == Outcome(s, [], [], false)
  {
  }

  lemma StillCalm(e: Env, g: Global, j: nat, o: Outcome, net: set<Message>, i: nat)
    requires Calm(e, g) && j < e.n && i < e.n && CalmStep(e, g, j, o) && net == g.net + set m | m in o.sent
    requires o.party.round <= e.n + 2
    ensures CalmAmong(e, g.parties[j := o.party], net, i)
  {
    var parties := g.parties[j := o.party];
    assert CalmAmong(e, g.parties, g.net, i) && CalmAmong(e, g.parties, g.net, j);
    if i == j && Active(o.party) {
      forall q | 1 <= q <= o.party.round ensures Broadcast(e, i, q) in net {
        if g.parties[i].started && q <= g.parties[i].round {
          assert Broadcast(e, i, q) in g.net;
        } else {
          assert Broadcast(e, i, q) in o.sent;
        }
      }
    }
  }

  lemma AllStillCalm(e: Env, g: Global, j: nat, o: Outcome, net: set<Message>)
    requires Calm(e, g) && j < e.n && CalmStep(e, g, j, o) && net == g.net + set m | m in o.sent
    requires o.party.round <= e.n + 2
    ensures AllCalm(e, g.parties[j := o.party], net)
  {
    var parties := g.parties[j := o.party];
    forall i: nat | i < e.n ensures CalmAmong(e, parties, net, i) {
      StillCalm(e, g, j, o, net, i);
    }
  }

  /** Every event but Trent's answers keeps the runs without Trent calm. */
  lemma CalmNext(e: Env, g: Global, v: Event)
    requires HonestEnv(e) && Calm(e, g) && !v.TrentSays?
    ensures Calm(e, Next(e, Everybody(e.n), g, v))
  {
    SignProtocol.NextKeeps(e, Everybody(e.n), g, v);
    if Enabled(e, Everybody(e.n), g, v) {
      var g' := Next(e, Everybody(e.n), g, v);
      CalmEvent(e, g, v);
      assert PartyOk(e, v.i, g'.parties[v.i]);
      AllStillCalm(e, g, v.i, Reaction(e, g.parties[v.i], v), g'.net);
    }
  }

  lemma {:induction false} CalmRun(e: Env, events: seq<Event>)
    requires HonestEnv(e) && forall v :: v in events ==> !v.TrentSays?
    ensures Calm(e, SignProtocol.Run(e, Everybody(e.n), events))
    decreases |events|
  {
    SignProtocol.RunKeeps(e, Everybody(e.n), events);
    if events != [] {
      var last := |events| - 1;
      CalmRun(e, events[..last]);
      CalmNext(e, SignProtocol.Run(e, Everybody(e.n), events[..last]), events[last]);
    }
  }

  // ----- the theorem -----

  /** Party i got everything that was sent to it. */
  ghost predicate Received(e: Env, g: Global, i: nat)
    requires i < |g.parties|
  {
    forall m :: m in g.net && m.from != i ==>
      if m.round == e.n + 2 then m.from in g.parties[i].signatures else (m.round, m.from) in g.parties[i].rows
  }

  /** As long as the first party has not sent its clear signatures, nobody is finalized. */
  lemma NobodyBeforeFirst(e: Env, g: Global, i: nat)
    requires Calm(e, g) && i < e.n && g.parties[0].round != e.n + 2 && Active(g.parties[i])
    ensures g.parties[i].status == Signing
  {
    assert CalmAmong(e, g.parties, g.net, i);
  }

  /** Once it has, everybody who received them is. */
  lemma FirstFinalizes(e: Env, g: Global, i: nat)
    requires HonestEnv(e) && Calm(e, g) && i < e.n && Active(g.parties[0]) && Active(g.parties[i])
    requires g.parties[0].round == e.n + 2 && (g.parties[i].status == Signing ==> Received(e, g, i))
    ensures g.parties[i].status == Finalized && HasClear(e, g.parties[i].signatures, 0)
  {
    assert CalmAmong(e, g.parties, g.net, i) && CalmAmong(e, g.parties, g.net, 0);
    assert Broadcast(e, 0, e.n + 2) in g.net;
    assert e.signed(0, e.clear(0, i), None) == Some(true);
  }

  /** Nobody refused or gave up, and whoever is still signing has received everything. */
  ghost predicate Quiet(e: Env, g: Global) {
    && |g.parties| == e.n
    && forall i :: 0 <= i < e.n ==> Active(g.parties[i]) && (g.parties[i].status == Signing ==> Received(e, g, i))
  }

  lemma AllSigning(e: Env, g: Global)
    requires Calm(e, g) && Quiet(e, g) && e.n >= 1 && g.parties[0].round != e.n + 2
    ensures forall i :: 0 <= i < e.n ==> g.parties[i].status == Signing
    ensures AllReceived(e, g)
  {
    forall i: nat | i < e.n ensures g.parties[i].status == Signing {
      assert Active(g.parties[i]);
      NobodyBeforeFirst(e, g, i);
    }
    PromisesReceived(e, g);
  }

  lemma AllDone(e: Env, g: Global)
    requires Calm(e, g) && e.n >= 1 && AllReceived(e, g)
    requires forall i :: 0 <= i < e.n ==> g.parties[i].status == Signing
    requires e.n >= 2 || Settled(e, g.parties[0])
    ensures g.parties[Lowest(g.parties)].round == e.n + 2
  {
    LowestDone(e, Everybody(e.n), g, Lowest(g.parties));
  }

  lemma FirstHasSent(e: Env, g: Global)
    requires Calm(e, g) && Quiet(e, g) && e.n >= 1
    requires e.n >= 2 || (g.parties[0].status == Signing ==> Settled(e, g.parties[0]))
    ensures g.parties[0].round == e.n + 2
  {
    if g.parties[0].round != e.n + 2 {
      AllSigning(e, g);
      AllDone(e, g);
      assert false;
    }
  }

  /**
   * The optimistic promise: parties that run the code, of whom nobody refuses or gives up, are all finalized as soon
   * as whoever is still signing has received everything that was sent, and hold the first party's clear signature;
   * Trent is not needed. A single party must have received a message of its own.
   */
  lemma EveryoneCompletes(e: Env, events: seq<Event>)
    requires HonestEnv(e) && e.n >= 1 && forall v :: v in events ==> !v.TrentSays?
    requires e.n >= 2 || Heeded(e, Everybody(e.n), events, 0)
    requires Quiet(e, SignProtocol.Run(e, Everybody(e.n), events))
    ensures forall i :: 0 <= i < e.n ==>
              var s := SignProtocol.Run(e, Everybody(e.n), events).parties[i];
              s.status == Finalized && HasClear(e, s.signatures, 0)
  {
    CalmRun(e, events);
    var g := SignProtocol.Run(e, Everybody(e.n), events);
    RunLooks(e, Everybody(e.n), events, 0);
    FirstHasSent(e, g);
    forall i: nat | i < e.n ensures g.parties[i].status == Finalized && HasClear(e, g.parties[i].signatures, 0) {
      assert Active(g.parties[i]) && Active(g.parties[0]);
      FirstFinalizes(e, g, i);
    }
  }

  lemma PromisesReceived(e: Env, g: Global)
    requires |g.parties| == e.n && forall i :: 0 <= i < e.n ==> Received(e, g, i)
    ensures AllReceived(e, g)
  {
    forall m, i: nat | m in g.net && i < e.n && i != m.from && m.round <= e.n + 1
      ensures (m.round, m.from) in g.parties[i].rows
    {
      assert Received(e, g, i);
    }
  }
}
