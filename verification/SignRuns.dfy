/** What comes in and what goes out over whole runs of the signing protocol. */
module SignRuns {
  import opened Wrappers
  import opened Sigma
  import opened SigmaSigner
  import TrentSolver
  import opened SignStep
  import opened SignProtocol

  // ----- what Trent's answers can change -----

  predicate IsNotice(v: Event) {
    v.TrentSays? && v.answer.SenderDishonest?
  }

  ghost function WithoutNotices(events: seq<Event>): seq<Event> {
    Those(events, (v: Event) => !IsNotice(v))
  }

  /** Hearing that a sender was dishonest changes nobody and sends nothing, in any state and with any seals. */
  lemma NoticeIgnored(e: Env, honest: set<nat>, g: Global, v: Event)
    requires IsNotice(v)
    ensures Next(e, honest, g, v) == g
  {
    if Enabled(e, honest, g, v) { assert g.parties[v.i := g.parties[v.i]] == g.parties; }
  }

  /** So it makes no difference to a run how many such notices are heard, by whom and when. */
  lemma {:induction false} NoticesIgnored(e: Env, honest: set<nat>, events: seq<Event>)
    ensures Run(e, honest, events) == Run(e, honest, WithoutNotices(events))
    decreases |events|
  {
    if events != [] {
      var before, v := events[..|events| - 1], events[|events| - 1];
      NoticesIgnored(e, honest, before);
      if IsNotice(v) {
        NoticeIgnored(e, honest, Run(e, honest, before), v);
      } else {
        assert (WithoutNotices(before) + [v])[..|WithoutNotices(before)|] == WithoutNotices(before);
      }
    }
  }

  /** The answer is no notice, and the party takes its seal for Trent's. */
  ghost predicate SealTrusted(e: Env, s: Party, v: Event) {
    && v.TrentSays? && !v.answer.SenderDishonest?
    && v.i in v.seals && e.sealed(s.expects, v.answer, v.seals[v.i]) == Some(true)
  }

  /** An answer, resolved or not, changes at most the party that hears it, and that only by an accepted seal. */
  lemma AnswerNeedsSeal(e: Env, honest: set<nat>, g: Global, v: Event)
    requires v.TrentSays?
    ensures var g' := Next(e, honest, g, v);
            && g'.net == g.net && g'.claims == g.claims && |g'.parties| == |g.parties|
            && (forall j :: 0 <= j < |g.parties| && j != v.i ==> g'.parties[j] == g.parties[j])
            && (g' != g ==> Enabled(e, honest, g, v) && SealTrusted(e, g.parties[v.i], v))
  {
    if Enabled(e, honest, g, v) && !SealTrusted(e, g.parties[v.i], v) {
      assert g.parties[v.i := g.parties[v.i]] == g.parties;
    }
  }

  /**
   * An answer that is a notice, or whose seal is missing or not accepted, leaves the party as it is; hearing it throws
   * exactly when the seal is missing or its test throws.
   */
  lemma AnswerUnread(e: Env, i: nat, s: Party, answer: TrentSolver.Answer, seals: map<nat, Signature>)
    requires answer.SenderDishonest? || i !in seals || e.sealed(s.expects, answer, seals[i]) != Some(true)
    ensures var (s', ok) := OnAnswer(e, i, s, answer, seals);
            && s' == s
            && (ok <==> answer.SenderDishonest? || (i in seals && e.sealed(s.expects, answer, seals[i]).Some?))
  {
  }

  // ----- who is ever cancelled -----

  lemma {:induction false} AdvanceCancels(e: Env, i: nat, s: Party)
    requires s.status != Cancelled
    ensures Advance(e, i, s).party.status != Cancelled
    decreases e.n + 2 - s.round
  {
    if s.round <= e.n + 1 && ClaimFormed(e, s) && s.status == Signing {
      var first := SendMessage(e, i, s.(round := s.round + 1));
      if first.ok { AdvanceCancels(e, i, first.party); }
    }
  }

  lemma {:induction false} AcceptCancels(e: Env, s: Party, signatures: seq<Signature>, k: nat)
    requires s.status != Cancelled
    ensures AcceptAll(e, s, signatures, k).0.status != Cancelled
    decreases |signatures| - k
  {
    if k < |signatures| && k < e.n {
      var s' := s.(expects := OfParty(k));
      match SignedInThreeRounds(e, k, signatures[k], s.round)
      case None =>
      case Some(false) => AcceptCancels(e, s', signatures, k + 1);
      case Some(true) => AcceptCancels(e, AddSignature(e, s', k, signatures[k]).0, signatures, k + 1);
    }
  }

  /** Event k of the run was an abort of Trent, or the proof of somebody's dishonesty, with a seal that i accepted. */
  ghost predicate CancelledBy(e: Env, honest: set<nat>, events: seq<Event>, k: nat, i: nat)
    requires i < e.n
  {
    k < |events| && events[k].i == i && SealTrusted(e, Run(e, honest, events[..k]).parties[i], events[k])
    && !events[k].answer.Resolved?
  }

  lemma StepCancels(e: Env, s: Party, v: Event)
    requires s.status != Cancelled && Reaction(e, s, v).party.status == Cancelled
    ensures SealTrusted(e, s, v) && !v.answer.Resolved?
  {
    match v
    case Begin(i) =>
    case Deliver(i, m) => AdvanceCancels(e, i, Store(e, i, s, m).0);
    case Timeout(i) =>
    case TrentSays(i, answer, seals) => if answer.Resolved? { AcceptCancels(e, s, answer.signatures, 0); }
  }

  /** Nobody is cancelled unless Trent said so: by an answer that is no resolution and whose seal the party accepted. */
  lemma {:induction false} CancelledBySeal(e: Env, honest: set<nat>, events: seq<Event>, i: nat)
    requires i < e.n && Run(e, honest, events).parties[i].status == Cancelled
    ensures exists k: nat :: CancelledBy(e, honest, events, k, i)
    decreases |events|
  {
    var last := |events| - 1;
    var before, v := events[..last], events[last];
    var g := Run(e, honest, before);
    if g.parties[i].status == Cancelled {
      CancelledBySeal(e, honest, before, i);
      var k: nat :| CancelledBy(e, honest, before, k, i);
      assert before[..k] == events[..k];
      assert CancelledBy(e, honest, events, k, i);
    } else {
      StepCancels(e, g.parties[i], v);
      assert CancelledBy(e, honest, events, last, i);
    }
  }

  // ----- what a party can hold -----

  /** The signature was accepted as one on the contract, or verifies as that of party k in some round. */
  ghost predicate Vouched(e: Env, k: nat, sig: Signature) {
    e.clearAccepted(sig) == Some(true) || exists q :: e.signed(k, sig, Some(q)) == Some(true)
  }

  ghost predicate AllVouched(e: Env, signatures: map<nat, Signature>) {
    forall k :: k in signatures ==> Vouched(e, k, signatures[k])
  }

  /** Of the signatures a party holds, sending changes at most its own. */
  ghost predicate OwnSigned(e: Env, i: nat, s: Party, o: Outcome) {
    o.party.signatures == s.signatures || o.party.signatures == s.signatures[i := e.clear(i, i)]
  }

  lemma SendSigns(e: Env, i: nat, s: Party, o: Outcome)
    requires o == SendMessage(e, i, s)
    ensures OwnSigned(e, i, s, o) && o.party.round == s.round
  {
  }

  lemma {:induction false} AdvanceSigns(e: Env, i: nat, s: Party, o: Outcome)
    requires o == Advance(e, i, s)
    ensures OwnSigned(e, i, s, o)
    decreases e.n + 2 - s.round
  {
    if s.round <= e.n + 1 && ClaimFormed(e, s) && s.status == Signing {
      var first := SendMessage(e, i, s.(round := s.round + 1));
      SendSigns(e, i, s.(round := s.round + 1), first);
      if first.ok {
        var rest := Advance(e, i, first.party);
        AdvanceUnfolds(e, i, s, first, rest);
        AdvanceSigns(e, i, first.party, rest);
      }
    }
  }

  lemma OwnVouched(e: Env, honest: set<nat>, i: nat, s: Party, o: Outcome)
    requires ValidEnv(e, honest) && i in honest && AllVouched(e, s.signatures) && OwnSigned(e, i, s, o)
    ensures AllVouched(e, o.party.signatures)
  {
    assert e.clearAccepted(e.clear(i, i)) == Some(true);
  }

  lemma ThreeVouched(e: Env, k: nat, sig: Signature, round: int)
    requires SignedInThreeRounds(e, k, sig, round) == Some(true)
    ensures Vouched(e, k, sig)
  {
  }

  lemma {:induction false} AcceptVouched(e: Env, s: Party, signatures: seq<Signature>, k: nat)
    requires AllVouched(e, s.signatures)
    ensures AllVouched(e, AcceptAll(e, s, signatures, k).0.signatures)
    decreases |signatures| - k
  {
    if k < |signatures| && k < e.n {
      var s' := s.(expects := OfParty(k));
      match SignedInThreeRounds(e, k, signatures[k], s.round)
      case None =>
      case Some(false) => AcceptVouched(e, s', signatures, k + 1);
      case Some(true) =>
        ThreeVouched(e, k, signatures[k], s.round);
        AcceptVouched(e, AddSignature(e, s', k, signatures[k]).0, signatures, k + 1);
    }
  }

  lemma StoreVouched(e: Env, i: nat, s: Party, m: Message)
    requires AllVouched(e, s.signatures)
    ensures AllVouched(e, Store(e, i, s, m).0.signatures)
  {
  }

  lemma StepVouched(e: Env, honest: set<nat>, s: Party, v: Event)
    requires ValidEnv(e, honest) && v.i in honest && AllVouched(e, s.signatures)
    ensures AllVouched(e, Reaction(e, s, v).party.signatures)
  {
    match v
    case Begin(i) => OwnVouched(e, honest, i, IDLE, Start(e, i));
    case Deliver(i, m) =>
      StoreVouched(e, i, s, m);
      var s' := Store(e, i, s, m).0;
      AdvanceSigns(e, i, s', Advance(e, i, s'));
      OwnVouched(e, honest, i, s', Advance(e, i, s'));
    case Timeout(i) =>
    case TrentSays(i, answer, seals) => AcceptVouched(e, s, if answer.Resolved? then answer.signatures else [], 0);
  }

  /** No honest party ever holds a signature that none of its own tests has accepted, whatever it was sent. */
  lemma {:induction false} HeldVouched(e: Env, honest: set<nat>, events: seq<Event>, i: nat)
    requires ValidEnv(e, honest) && i in honest && i < e.n
    ensures AllVouched(e, Run(e, honest, events).parties[i].signatures)
    decreases |events|
  {
    if events != [] {
      var before, v := events[..|events| - 1], events[|events| - 1];
      HeldVouched(e, honest, before, i);
      if v.i == i { StepVouched(e, honest, Run(e, honest, before).parties[i], v); }
    }
  }

  // ----- what becomes of a delivered message -----

  /** Promise p of another party for a round of the protocol. */
  ghost predicate Promises(e: Env, i: nat, m: Message, p: Or) {
    m.from < e.n && m.from != i && 0 <= m.round <= e.n + 1 && i in m.body && m.body[i] == Promise(p)
  }

  /**
   * A delivered promise is stored exactly if it is the first one of its sender for its round and verifies; a stored
   * one is never replaced.
   */
  lemma PromiseStoredExactly(e: Env, honest: set<nat>, g: Global, i: nat, m: Message, p: Or)
    requires ValidEnv(e, honest) && Inv(e, honest, g) && Enabled(e, honest, g, Deliver(i, m)) && Promises(e, i, m, p)
    ensures var x := (m.round, m.from);
            var before, after := g.parties[i].rows, Next(e, honest, g, Deliver(i, m)).parties[i].rows;
            && (x in after <==> x in before || e.accepts(m.round, p) == Some(true))
            && (x in after ==> after[x] == if x in before then before[x] else p)
  {
    var s := g.parties[i];
    assert PartyOk(e, i, s);
    StoreKeeps(e, honest, i, s, m);
    var (s', ok) := Store(e, i, s, m);
    if ok { AdvanceKeeps(e, honest, i, s', Advance(e, i, s')); }
  }

  /** Clear signature sig of another party. */
  ghost predicate Clears(e: Env, i: nat, m: Message, sig: Signature) {
    m.from < e.n && m.from != i && m.round == e.n + 2 && i in m.body && m.body[i] == Clear(sig)
  }

  /** What a party holds and how it stands after storing a clear signature that it accepts, or not. */
  lemma StoreClearExactly(e: Env, s: Party, j: nat, sig: Signature)
    ensures var (s', ok) := StoreClear(e, s, j, sig);
            var all := s.signatures[j := sig];
            if e.clearAccepted(sig) != Some(true) then s' == s && ok == e.clearAccepted(sig).Some?
            else match FinalizedFrom(e, all, 0, false)
              case None => s' == s.(signatures := all) && !ok
              case Some(done) =>
                s' == (if done then s.(signatures := all, status := Finalized, listening := false)
                       else s.(signatures := all)) && ok
  {
  }

  /** A message for a round is read only if it is the sender's first one; one with clear signatures always is. */
  ghost predicate Reads(e: Env, i: nat, s: Party, m: Message) {
    m.from != i && (m.round == e.n + 2 || (m.round, m.from) !in s.rows)
  }

  /** What is read can be: the promise for this receiver, or anything in place of a clear signature. */
  ghost predicate Legible(e: Env, i: nat, s: Party, m: Message) {
    && i in m.body
    && match m.body[i]
       case Promise(p) => m.round == e.n + 2 || (0 <= m.round <= e.n + 1 && e.accepts(m.round, p).Some?)
       case Clear(sig) => m.round == e.n + 2 && StoreClear(e, s, m.from, sig).1
       case Garbage => m.round == e.n + 2
  }

  /** Handling a message throws exactly for a stranger, or when something is read that cannot be, and changes no row. */
  lemma StoreReturnsExactly(e: Env, i: nat, s: Party, m: Message)
    requires forall x :: x in s.rows ==> 0 <= x.0 <= e.n + 1
    ensures var (s', ok) := Store(e, i, s, m);
            && (ok <==> m.from < e.n && (Reads(e, i, s, m) ==> Legible(e, i, s, m)))
            && (!ok ==> s'.rows == s.rows && s'.listening == s.listening)
            && (!Reads(e, i, s, m) ==> s' == s)
  {
  }

  /** A delivered clear signature is held afterwards exactly if it is accepted as one on the contract. */
  lemma ClearStoredExactly(e: Env, honest: set<nat>, g: Global, i: nat, m: Message, sig: Signature)
    requires ValidEnv(e, honest) && Inv(e, honest, g) && Enabled(e, honest, g, Deliver(i, m)) && Clears(e, i, m, sig)
    ensures var before, after := g.parties[i].signatures, Next(e, honest, g, Deliver(i, m)).parties[i].signatures;
            if e.clearAccepted(sig) == Some(true) then m.from in after && after[m.from] == sig
            else (m.from in after <==> m.from in before) && (m.from in before ==> after[m.from] == before[m.from])
  {
    var s := g.parties[i];
    StoreClearExactly(e, s, m.from, sig);
    var (s', ok) := Store(e, i, s, m);
    AdvanceSigns(e, i, s', Advance(e, i, s'));
  }

  // ----- nothing received is lost -----

  /** What the party had it still has, though a signature may have been replaced. */
  ghost predicate Keeps(s: Party, s': Party) {
    && (s.started ==> s'.started)
    && (forall x :: x in s.rows ==> x in s'.rows && s'.rows[x] == s.rows[x])
    && (forall k :: k in s.signatures ==> k in s'.signatures)
  }

  lemma {:induction false} AcceptHolds(e: Env, s: Party, signatures: seq<Signature>, k: nat)
    ensures forall j :: j in s.signatures ==> j in AcceptAll(e, s, signatures, k).0.signatures
    decreases |signatures| - k
  {
    if k < |signatures| && k < e.n {
      var s' := s.(expects := OfParty(k));
      match SignedInThreeRounds(e, k, signatures[k], s.round)
      case None =>
      case Some(false) => AcceptHolds(e, s', signatures, k + 1);
      case Some(true) => AcceptHolds(e, AddSignature(e, s', k, signatures[k]).0, signatures, k + 1);
    }
  }

  lemma StoreHolds(e: Env, i: nat, s: Party, m: Message)
    ensures forall k :: k in s.signatures ==> k in Store(e, i, s, m).0.signatures
  {
  }

  lemma DeliverHolds(e: Env, i: nat, s: Party, m: Message)
    ensures forall k :: k in s.signatures ==> k in Notify(e, i, s, m).party.signatures
  {
    StoreHolds(e, i, s, m);
    var s' := Store(e, i, s, m).0;
    AdvanceSigns(e, i, s', Advance(e, i, s'));
  }

  lemma ReactionHolds(e: Env, s: Party, v: Event)
    requires v.Begin? ==> s == IDLE
    ensures forall k :: k in s.signatures ==> k in Reaction(e, s, v).party.signatures
  {
    match v
    case Begin(i) =>
    case Deliver(i, m) => DeliverHolds(e, i, s, m);
    case Timeout(i) =>
    case TrentSays(i, answer, seals) => AcceptHolds(e, s, if answer.Resolved? then answer.signatures else [], 0);
  }

  lemma NextHolds(e: Env, honest: set<nat>, g: Global, v: Event, i: nat)
    requires ValidEnv(e, honest) && Inv(e, honest, g) && i < e.n
    ensures Keeps(g.parties[i], Next(e, honest, g, v).parties[i])
  {
    if Enabled(e, honest, g, v) && v.i == i {
      EventSteps(e, honest, g, v);
      assert PartyOk(e, i, g.parties[i]);
      ReactionHolds(e, g.parties[i], v);
    }
  }

  /** Whatever happens later. */
  lemma {:induction false} RunHolds(e: Env, honest: set<nat>, events: seq<Event>, k: nat, i: nat)
    requires ValidEnv(e, honest) && k <= |events| && i < e.n
    ensures Keeps(Run(e, honest, events[..k]).parties[i], Run(e, honest, events).parties[i])
    decreases |events|
  {
    if k == |events| {
      assert events[..k] == events;
    } else {
      var before := events[..|events| - 1];
      assert before[..k] == events[..k];
      RunHolds(e, honest, before, k, i);
      RunKeeps(e, honest, before);
      NextHolds(e, honest, Run(e, honest, before), events[|events| - 1], i);
    }
  }

  /** Event k delivers the message to party i, which listens. */
  ghost predicate DeliveredAt(e: Env, honest: set<nat>, events: seq<Event>, k: nat, i: nat, m: Message) {
    k < |events| && events[k] == Deliver(i, m) && Enabled(e, honest, Run(e, honest, events[..k]), events[k])
  }

  /** Party i has stored what the message holds for it: the promise of its sender for its round, or a signature. */
  ghost predicate Has(e: Env, s: Party, m: Message) {
    if m.round == e.n + 2 then m.from in s.signatures else (m.round, m.from) in s.rows
  }

  lemma DeliveryStores(e: Env, honest: set<nat>, g: Global, i: nat, m: Message)
    requires ValidEnv(e, honest) && Inv(e, honest, g) && Enabled(e, honest, g, Deliver(i, m))
    requires m.from != i && m.from in honest
    ensures Has(e, Next(e, honest, g, Deliver(i, m)).parties[i], m)
  {
    assert MessageOk(e, honest, g.parties, m) && PartyOk(e, m.from, g.parties[m.from]);
    assert m == Broadcast(e, m.from, m.round);
    if m.round == e.n + 2 {
      ClearStoredExactly(e, honest, g, i, m, e.clear(m.from, i));
    } else {
      PromiseStoredExactly(e, honest, g, i, m, e.promise(m.from, m.round, i));
    }
  }

  /** What an honest party sent and another one was given, that one has for ever. */
  lemma DeliveredKept(e: Env, honest: set<nat>, events: seq<Event>, k: nat, i: nat, m: Message)
    requires ValidEnv(e, honest) && DeliveredAt(e, honest, events, k, i, m) && m.from != i && m.from in honest
    ensures i < e.n && Has(e, Run(e, honest, events).parties[i], m)
  {
    RunKeeps(e, honest, events[..k]);
    DeliveryStores(e, honest, Run(e, honest, events[..k]), i, m);
    assert events[..k + 1][..k] == events[..k];
    RunHolds(e, honest, events, k + 1, i);
  }

  /** Everything that the others sent was delivered to party i. */
  ghost predicate AllDelivered(e: Env, honest: set<nat>, events: seq<Event>, i: nat) {
    forall m :: m in Run(e, honest, events).net && m.from != i ==>
      exists k: nat :: DeliveredAt(e, honest, events, k, i, m)
  }

  lemma AllHas(e: Env, honest: set<nat>, events: seq<Event>, i: nat)
    requires ValidEnv(e, honest) && i < e.n && AllDelivered(e, honest, events, i)
    ensures forall m :: m in Run(e, honest, events).net && m.from != i ==> Has(e, Run(e, honest, events).parties[i], m)
  {
    RunKeeps(e, honest, events);
    var g := Run(e, honest, events);
    forall m | m in g.net && m.from != i ensures Has(e, g.parties[i], m) {
      assert MessageOk(e, honest, g.parties, m);
      var k: nat :| DeliveredAt(e, honest, events, k, i, m);
      DeliveredKept(e, honest, events, k, i, m);
    }
  }

  /** Honest parties that are all signing and were delivered everything have sent everything. */
  lemma EveryoneSends(e: Env, honest: set<nat>, events: seq<Event>)
    requires ValidEnv(e, honest) && e.n >= 1 && (forall i: nat :: i < e.n ==> i in honest)
    requires e.n >= 2 || Heeded(e, honest, events, 0)
    requires forall i: nat :: i < e.n ==>
               Run(e, honest, events).parties[i].status == Signing && AllDelivered(e, honest, events, i)
    ensures forall i, q :: 0 <= i < e.n && 1 <= q <= e.n + 2 ==> Broadcast(e, i, q) in Run(e, honest, events).net
  {
    var g := Run(e, honest, events);
    forall m, i: nat | m in g.net && i < e.n && i != m.from && m.round <= e.n + 1
      ensures (m.round, m.from) in g.parties[i].rows
    {
      AllHas(e, honest, events, i);
      assert Has(e, g.parties[i], m);
    }
    NobodyStuck(e, honest, events);
    RunKeeps(e, honest, events);
    forall i: nat, q | i < e.n && 1 <= q <= e.n + 2 ensures Broadcast(e, i, q) in g.net {
      assert Waiting(e, i, g.parties[i], g.net);
    }
  }
}
