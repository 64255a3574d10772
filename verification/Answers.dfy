/** What a party makes of a resolved answer, whatever signatures it holds. */
module Answers {
  import opened Wrappers
  import opened SigmaSigner
  import opened TrentSolver
  import opened SignStep
  import opened SignProtocol

  // ----- one signature -----

  /** One of the three rounds a party tests. */
  predicate Tested(round: int, q: int) {
    q == round || q == round - 1 || q == round - 2
  }

  /** A signature that can be tested passes exactly when it is one of party k for one of the three rounds. */
  lemma ThreeRoundsExactly(e: Env, k: nat, sig: Signature, round: int)
    requires Testable(e, k, sig)
    ensures var r := SignedInThreeRounds(e, k, sig, round);
            r.Some? && (r.value <==> exists q :: Tested(round, q) && e.signed(k, sig, Some(q)) == Some(true))
  {
    if exists q :: Tested(round, q) && e.signed(k, sig, Some(q)) == Some(true) {
      var q :| Tested(round, q) && e.signed(k, sig, Some(q)) == Some(true);
      assert q == round || q == round - 1 || q == round - 2;
    } else {
      assert Tested(round, round) && Tested(round, round - 1) && Tested(round, round - 2);
    }
  }

  /** The test of signature k as one of party k returns. */
  predicate Readable(e: Env, round: int, signatures: seq<Signature>, k: nat)
    requires k < |signatures|
  {
    SignedInThreeRounds(e, k, signatures[k], round).Some?
  }

  /** Signature k passes as one of party k. */
  predicate Own(e: Env, round: int, signatures: seq<Signature>, k: nat)
    requires k < |signatures|
  {
    SignedInThreeRounds(e, k, signatures[k], round) == Some(true)
  }

  lemma OwnTestable(e: Env, honest: set<nat>, round: int, signatures: seq<Signature>, k: nat)
    requires ValidEnv(e, honest) && k < |signatures| == e.n && Own(e, round, signatures, k)
    ensures Testable(e, k, signatures[k])
  {
  }

  // ----- all signatures -----

  /** What a party holds after the first k signatures: those that pass, and what it held otherwise. */
  function Held(e: Env, round: int, held: map<nat, Signature>, signatures: seq<Signature>, k: nat): map<nat, Signature>
    requires k <= |signatures|
  {
    if k == 0 then held
    else
      var before := Held(e, round, held, signatures, k - 1);
      if Own(e, round, signatures, k - 1) then before[k - 1 := signatures[k - 1]] else before
  }

  lemma {:induction false} HeldAt(e: Env, round: int, held: map<nat, Signature>, signatures: seq<Signature>, k: nat,
                                  j: nat)
    requires k <= |signatures|
    ensures var h := Held(e, round, held, signatures, k);
            if j < k && Own(e, round, signatures, j) then j in h && h[j] == signatures[j]
            else (j in h <==> j in held) && (j in h ==> h[j] == held[j])
  {
    if k > 0 { HeldAt(e, round, held, signatures, k - 1, j); }
  }

  lemma {:induction false} HeldOk(e: Env, honest: set<nat>, round: int, held: map<nat, Signature>,
                                  signatures: seq<Signature>, k: nat)
    requires ValidEnv(e, honest) && k <= |signatures| == e.n && SignaturesOk(e, held)
    ensures SignaturesOk(e, Held(e, round, held, signatures, k))
  {
    if k > 0 {
      HeldOk(e, honest, round, held, signatures, k - 1);
      if Own(e, round, signatures, k - 1) { OwnTestable(e, honest, round, signatures, k - 1); }
    }
  }

  /** The signatures make the contract count as finalized. */
  ghost predicate Decided(e: Env, signatures: map<nat, Signature>) {
    || (exists k :: 0 <= k < e.n && HasClear(e, signatures, k) && forall j :: 0 <= j <= k ==> j in signatures)
    || ((forall j :: 0 <= j < e.n ==> j in signatures) && exists k :: 0 <= k < e.n && HasLate(e, signatures, k))
  }

  lemma DecidedExactly(e: Env, signatures: map<nat, Signature>)
    requires SignaturesOk(e, signatures)
    ensures var done := FinalizedFrom(e, signatures, 0, false);
            done.Some? && (done.value <==> Decided(e, signatures))
  {
    FinalizedExactly(e, signatures);
    FinalizedReturns(e, signatures, 0, false);
  }

  /** Storing signature j makes the contract count as finalized. */
  ghost predicate DoneAt(e: Env, round: int, held: map<nat, Signature>, signatures: seq<Signature>, j: nat)
    requires j < |signatures|
  {
    Own(e, round, signatures, j) && Decided(e, Held(e, round, held, signatures, j + 1))
  }

  /** What the loop over the signatures does from signature k on. */
  ghost predicate Accepted(e: Env, s: Party, held: map<nat, Signature>, signatures: seq<Signature>, k: nat, s': Party,
                           ok: bool)
    requires k <= |signatures| == e.n
  {
    && (ok <==> forall j :: k <= j < e.n ==> Readable(e, s.round, signatures, j))
    && (ok ==>
          && s' == s.(signatures := Held(e, s.round, held, signatures, e.n), status := s'.status,
                      expects := if k < e.n then OfParty(e.n - 1) else s.expects)
          && s'.status == if exists j :: k <= j < e.n && DoneAt(e, s.round, held, signatures, j) then Finalized
                          else s.status)
  }

  lemma AcceptsThis(e: Env, honest: set<nat>, s: Party, held: map<nat, Signature>, signatures: seq<Signature>, k: nat)
    requires ValidEnv(e, honest) && k < |signatures| == e.n && SignaturesOk(e, held)
    requires s.signatures == Held(e, s.round, held, signatures, k) && Own(e, s.round, signatures, k)
    ensures AddSignature(e, s, k, signatures[k]) ==
            (s.(signatures := Held(e, s.round, held, signatures, k + 1),
                status := if DoneAt(e, s.round, held, signatures, k) then Finalized else s.status), true)
  {
    HeldOk(e, honest, s.round, held, signatures, k + 1);
    DecidedExactly(e, Held(e, s.round, held, signatures, k + 1));
  }

  /** The loop goes on from s1 after signature k. */
  lemma AcceptedNext(e: Env, s: Party, s1: Party, held: map<nat, Signature>, signatures: seq<Signature>, k: nat,
                     s': Party, ok: bool)
    requires k < |signatures| == e.n && Readable(e, s.round, signatures, k)
    requires s1 == s.(signatures := s1.signatures, expects := OfParty(k),
                      status := if DoneAt(e, s.round, held, signatures, k) then Finalized else s.status)
    requires Accepted(e, s1, held, signatures, k + 1, s', ok)
    ensures Accepted(e, s, held, signatures, k, s', ok)
  {
  }

  lemma AcceptedStops(e: Env, s: Party, held: map<nat, Signature>, signatures: seq<Signature>, k: nat, s': Party)
    requires k < |signatures| == e.n && !Readable(e, s.round, signatures, k)
    ensures Accepted(e, s, held, signatures, k, s', false)
  {
  }

  lemma {:induction false} AcceptExactly(e: Env, honest: set<nat>, s: Party, held: map<nat, Signature>,
                                         signatures: seq<Signature>, k: nat, result: (Party, bool))
    requires ValidEnv(e, honest) && k <= |signatures| == e.n && SignaturesOk(e, held)
    requires s.signatures == Held(e, s.round, held, signatures, k) && result == AcceptAll(e, s, signatures, k)
    ensures Accepted(e, s, held, signatures, k, result.0, result.1)
    decreases e.n - k
  {
    if k < e.n {
      var s1 := s.(expects := OfParty(k));
      if !Readable(e, s.round, signatures, k) {
        AcceptedStops(e, s, held, signatures, k, result.0);
      } else if Own(e, s.round, signatures, k) {
        AcceptsThis(e, honest, s1, held, signatures, k);
        var s2 := AddSignature(e, s1, k, signatures[k]).0;
        AcceptExactly(e, honest, s2, held, signatures, k + 1, result);
        AcceptedNext(e, s, s2, held, signatures, k, result.0, result.1);
      } else {
        AcceptExactly(e, honest, s1, held, signatures, k + 1, result);
        AcceptedNext(e, s, s1, held, signatures, k, result.0, result.1);
      }
    }
  }

  // ----- the whole answer -----

  /** What a resolved answer with a genuine seal leaves of party s, when the call returns. */
  ghost predicate Taken(e: Env, s: Party, signatures: seq<Signature>, s': Party)
    requires |signatures| == e.n >= 1
  {
    var all := Held(e, s.round, s.signatures, signatures, e.n);
    && s' == s.(signatures := all, expects := OfParty(e.n - 1), status := s'.status,
                listening := s.listening && !Decided(e, all))
    && s'.status == if Decided(e, all) || exists j :: 0 <= j < e.n && DoneAt(e, s.round, s.signatures, signatures, j)
                    then Finalized else s.status
  }

  /**
   * The call returns exactly when every signature can be tested. Then the party holds those that pass as their
   * party's own, and what it held otherwise; it is finalized exactly if these make the contract count as finalized, or
   * did so while they were stored, or it was finalized before.
   */
  lemma AnswerExactly(e: Env, honest: set<nat>, i: nat, s: Party, answer: Answer, seals: map<nat, Signature>,
                      result: (Party, bool))
    requires ValidEnv(e, honest) && e.n >= 1 && SignaturesOk(e, s.signatures)
    requires answer.Resolved? && |answer.signatures| == e.n
    requires i in seals && e.sealed(s.expects, answer, seals[i]) == Some(true)
    requires result == OnAnswer(e, i, s, answer, seals)
    ensures result.1 <==> forall j :: 0 <= j < e.n ==> Readable(e, s.round, answer.signatures, j)
    ensures result.1 ==> Taken(e, s, answer.signatures, result.0)
  {
    var accepted := AcceptAll(e, s, answer.signatures, 0);
    AcceptExactly(e, honest, s, s.signatures, answer.signatures, 0, accepted);
    if accepted.1 {
      HeldOk(e, honest, s.round, s.signatures, answer.signatures, e.n);
      DecidedExactly(e, accepted.0.signatures);
    }
  }

  /** The signature it expects on the next answer is the last party's. */
  lemma AnswerExpects(e: Env, honest: set<nat>, i: nat, s: Party, answer: Answer, seals: map<nat, Signature>,
                      result: (Party, bool))
    requires ValidEnv(e, honest) && e.n >= 1 && SignaturesOk(e, s.signatures)
    requires answer.Resolved? && |answer.signatures| == e.n
    requires i in seals && e.sealed(s.expects, answer, seals[i]) == Some(true)
    requires result == OnAnswer(e, i, s, answer, seals)
    ensures result.1 ==> result.0.expects == OfParty(e.n - 1) && result.0.started == s.started
  {
    AnswerExactly(e, honest, i, s, answer, seals, result);
  }

  /** In state s a party hears a resolved answer that it takes for Trent's, and stops listening in state s'. */
  ghost predicate TakesAnswer(e: Env, says: Event, s: Party, s': Party) {
    && says.TrentSays? && says.answer.Resolved? && |says.answer.signatures| == e.n
    && says.i in says.seals && e.sealed(s.expects, says.answer, says.seals[says.i]) == Some(true)
    && OnAnswer(e, says.i, s, says.answer, says.seals) == (s', true) && !s'.listening
  }

  /** Any other answer cancels when its seal is taken for Trent's. */
  lemma OtherAnswer(e: Env, d: nat, s: Party, answer: Answer, seals: map<nat, Signature>, genuine: bool)
    requires d in seals && e.sealed(s.expects, answer, seals[d]) == Some(genuine)
    requires !answer.Resolved? && !answer.SenderDishonest?
    ensures OnAnswer(e, d, s, answer, seals) ==
            (if genuine then s.(status := Cancelled, listening := false) else s, true)
  {
  }

  // ----- signatures that all pass -----

  /** The signatures verify, each for its party, for round q. */
  ghost predicate AllSigned(e: Env, signatures: seq<Signature>, q: int) {
    |signatures| == e.n && forall j :: 0 <= j < e.n ==> e.signed(j, signatures[j], Some(q)) == Some(true)
  }

  /** A signature for a tested round is its party's own. */
  lemma SignedOwn(e: Env, honest: set<nat>, round: int, signatures: seq<Signature>, q: int, k: nat)
    requires ValidEnv(e, honest) && k < |signatures| == e.n && Tested(round, q)
    requires e.signed(k, signatures[k], Some(q)) == Some(true)
    ensures Own(e, round, signatures, k)
  {
    ThreeRoundsExactly(e, k, signatures[k], round);
  }

  lemma OwnsAll(e: Env, round: int, signatures: seq<Signature>, k: nat)
    requires k <= |signatures| == e.n
    ensures forall j: nat :: j in Held(e, round, map[], signatures, k) <==> j < k && Own(e, round, signatures, j)
    ensures forall j: nat :: j in Held(e, round, map[], signatures, k) ==>
              Held(e, round, map[], signatures, k)[j] == signatures[j]
  {
    forall j: nat
      ensures j in Held(e, round, map[], signatures, k) <==> j < k && j < |signatures| && Own(e, round, signatures, j)
      ensures j in Held(e, round, map[], signatures, k) ==>
                j < |signatures| && Held(e, round, map[], signatures, k)[j] == signatures[j]
    {
      HeldAt(e, round, map[], signatures, k, j);
    }
  }

  lemma DecidedByAll(e: Env, round: int, signatures: seq<Signature>, k: nat)
    requires k <= |signatures| == e.n
    requires forall j :: 0 <= j < e.n ==> e.signed(j, signatures[j], None) == Some(false)
    ensures Decided(e, Held(e, round, map[], signatures, k)) ==>
              k == e.n && forall j :: 0 <= j < e.n ==> Own(e, round, signatures, j)
  {
    OwnsAll(e, round, signatures, k);
    var all := Held(e, round, map[], signatures, k);
    forall j: nat | j < e.n ensures !HasClear(e, all, j) {}
    assert k !in all;
    if Decided(e, all) {
      forall j: nat | j < e.n ensures Own(e, round, signatures, j) { assert j in all; }
    }
  }

  /**
   * A party that held nothing is finalized by an answer without clear signatures exactly if every signature passes as
   * its party's own.
   */
  lemma EmptyHandedExactly(e: Env, s: Party, signatures: seq<Signature>, s': Party, i: nat, q: int)
    requires |signatures| == e.n >= 1 && s.signatures == map[] && s.status != Finalized && Taken(e, s, signatures, s')
    requires forall j :: 0 <= j < e.n ==> e.signed(j, signatures[j], None) == Some(false)
    requires i < e.n && 1 <= q <= e.n + 1 && e.signed(i, signatures[i], Some(q)) == Some(true)
    ensures s'.status == Finalized <==> forall j :: 0 <= j < e.n ==> Own(e, s.round, signatures, j)
  {
    forall j: nat | j < e.n && DoneAt(e, s.round, map[], signatures, j)
      ensures forall k :: 0 <= k < e.n ==> Own(e, s.round, signatures, k)
    {
      DecidedByAll(e, s.round, signatures, j + 1);
    }
    DecidedByAll(e, s.round, signatures, e.n);
    OwnsAll(e, s.round, signatures, e.n);
    var all := Held(e, s.round, map[], signatures, e.n);
    if forall j :: 0 <= j < e.n ==> Own(e, s.round, signatures, j) {
      assert i in all && all[i] == signatures[i];
      assert HasLate(e, all, i);
      assert Decided(e, all);
    }
  }

  /** When all are, the party ends with everybody's signature, finalized and no longer listening. */
  lemma ResolvedConcludes(e: Env, honest: set<nat>, i: nat, s: Party, answer: Answer, seals: map<nat, Signature>,
                          q: int, result: (Party, bool))
    requires ValidEnv(e, honest) && i < e.n && SignaturesOk(e, s.signatures) && 1 <= q <= e.n + 1 && Tested(s.round, q)
    requires answer.Resolved? && AllSigned(e, answer.signatures, q)
    requires i in seals && e.sealed(s.expects, answer, seals[i]) == Some(true)
    requires result == OnAnswer(e, i, s, answer, seals)
    ensures var (s', ok) := result;
            && ok && s'.status == Finalized && !s'.listening && s'.expects == OfParty(e.n - 1)
            && forall j: nat :: j < e.n ==> j in s'.signatures && s'.signatures[j] == answer.signatures[j]
  {
    AnswerExactly(e, honest, i, s, answer, seals, result);
    var all := Held(e, s.round, s.signatures, answer.signatures, e.n);
    forall j: nat | j < e.n
      ensures Own(e, s.round, answer.signatures, j) && j in all && all[j] == answer.signatures[j]
    {
      SignedOwn(e, honest, s.round, answer.signatures, q, j);
      HeldAt(e, s.round, s.signatures, answer.signatures, e.n, j);
    }
    assert HasLate(e, all, 0);
  }
}
