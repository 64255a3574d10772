/** Runs in which everything that is sent is also delivered. */
module Arrival {
  import opened Wrappers
  import opened SigmaSigner
  import opened SignStep
  import opened SignProtocol
  import opened SignRuns
  import opened Completion

  lemma SendActive(e: Env, i: nat, s: Party)
    requires Active(s) && !e.refuse(i, s.round)
    ensures Active(SendMessage(e, i, s).party)
  {
  }

  lemma {:induction false} AdvanceActive(e: Env, i: nat, s: Party)
    requires Active(s) && forall q :: !e.refuse(i, q)
    ensures Active(Advance(e, i, s).party)
    decreases e.n + 2 - s.round
  {
    if s.round <= e.n + 1 && ClaimFormed(e, s) && s.status == Signing {
      SendActive(e, i, s.(round := s.round + 1));
      var first := SendMessage(e, i, s.(round := s.round + 1));
      if first.ok { AdvanceActive(e, i, first.party); }
    }
  }

  /** Neither the party nor its user gives up. */
  ghost predicate Patient(e: Env, events: seq<Event>, i: nat) {
    Timeout(i) !in events && forall q :: !e.refuse(i, q)
  }

  lemma ReactionActive(e: Env, s: Party, v: Event)
    requires !v.Timeout? && !v.TrentSays? && (v.Begin? || Active(s)) && forall q :: !e.refuse(v.i, q)
    ensures Active(Reaction(e, s, v).party)
  {
    match v
    case Begin(i) => SendActive(e, i, IDLE.(started := true, listening := true, status := Signing));
    case Deliver(i, m) => AdvanceActive(e, i, Store(e, i, s, m).0);
  }

  lemma StepActive(e: Env, honest: set<nat>, g: Global, v: Event, i: nat)
    requires ValidEnv(e, honest) && SignProtocol.Inv(e, honest, g) && Enabled(e, honest, g, v) && v.i == i
    requires !v.Timeout? && !v.TrentSays? && forall q :: !e.refuse(i, q)
    requires g.parties[i].started ==> Active(g.parties[i])
    ensures i < e.n && Active(Next(e, honest, g, v).parties[i]) && Next(e, honest, g, v).parties[i].started
  {
    EventSteps(e, honest, g, v);
    assert PartyOk(e, i, g.parties[i]);
    ReactionActive(e, g.parties[i], v);
  }

  lemma {:induction false} StaysActive(e: Env, honest: set<nat>, events: seq<Event>, i: nat)
    requires ValidEnv(e, honest) && i in honest && i < e.n
    requires Patient(e, events, i) && forall v :: v in events ==> !v.TrentSays?
    ensures var s := Run(e, honest, events).parties[i];
            (s.started ==> Active(s)) && (Begin(i) in events ==> s.started)
    decreases |events|
  {
    if events != [] {
      var before, v := events[..|events| - 1], events[|events| - 1];
      StaysActive(e, honest, before, i);
      RunKeeps(e, honest, before);
      var g := Run(e, honest, before);
      if v.i == i && Enabled(e, honest, g, v) { StepActive(e, honest, g, v, i); }
    }
  }

  /**
   * The optimistic promise in terms of what happens: when everybody runs the code and is started, nobody refuses or
   * gives up, and everything sent was delivered to whoever is still signing, then everybody is finalized, with the
   * first party's clear signature. A single party must have received a message of its own.
   */
  lemma DeliveryCompletes(e: Env, events: seq<Event>)
    requires HonestEnv(e) && e.n >= 1 && forall v :: v in events ==> !v.TrentSays?
    requires e.n >= 2 || Heeded(e, Everybody(e.n), events, 0)
    requires forall i: nat :: i < e.n ==> Begin(i) in events && Patient(e, events, i)
    requires forall i: nat :: i < e.n && Run(e, Everybody(e.n), events).parties[i].status == Signing ==>
               AllDelivered(e, Everybody(e.n), events, i)
    ensures forall i :: 0 <= i < e.n ==>
              var s := Run(e, Everybody(e.n), events).parties[i];
              s.status == Finalized && HasClear(e, s.signatures, 0)
  {
    var honest := Everybody(e.n);
    var g := Run(e, honest, events);
    forall i: nat | i < e.n
      ensures Active(g.parties[i]) && (g.parties[i].status == Signing ==> Received(e, g, i))
    {
      StaysActive(e, honest, events, i);
      if g.parties[i].status == Signing {
        AllHas(e, honest, events, i);
        forall m | m in g.net && m.from != i
          ensures if m.round == e.n + 2 then m.from in g.parties[i].signatures
                  else (m.round, m.from) in g.parties[i].rows
        {
          assert Has(e, g.parties[i], m);
        }
      }
    }
    EveryoneCompletes(e, events);
  }
}
