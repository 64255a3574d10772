/** Every contract has a solver of its own, which is asked exactly what was let in about that contract. */
module TrentCases {
  import opened Wrappers
  import opened Identity
  import opened SigmaSigner
  import opened Sigma
  import opened Trent
  import TrentSolver
  import opened TrentService

  /** The calls made for the letters about one contract, in their order; the others were not let in. */
  function CallsAbout(d: Desk, deliveries: seq<Delivery>, id: string): seq<TrentSolver.Call> {
    if deliveries == [] then []
    else
      var last := |deliveries| - 1;
      var before := CallsAbout(d, deliveries[..last], id);
      var l := deliveries[last].letter;
      if l.contract.text == id && Admitted(d, l) == Some(true) then before + [CallOf(deliveries[last])] else before
  }

  /** The solver of a contract is where a solver of its own gets by these calls. */
  ghost predicate Mirrors(d: Desk, cases: Cases, id: string, calls: seq<TrentSolver.Call>) {
    && (id in cases <==> calls != [])
    && (id in cases ==> cases[id].state == TrentSolver.Run(d.keys, cases[id].n, calls).0)
  }

  lemma RunOne(d: Desk, n: nat, calls: seq<TrentSolver.Call>, call: TrentSolver.Call)
    ensures TrentSolver.Run(d.keys, n, calls + [call]).0
            == TrentSolver.Resolve(d.keys, n, TrentSolver.Run(d.keys, n, calls).0, call).0
  {
    assert (calls + [call])[..|calls|] == calls;
  }

  /** A request about a contract touches nobody else's solver, and its own only if it is let in. */
  lemma HandleMirrors(d: Desk, cases: Cases, v: Delivery, id: string, calls: seq<TrentSolver.Call>)
    requires Mirrors(d, cases, id, calls)
    ensures var cases' := Handle(d, cases, v).0;
            if v.letter.contract.text == id && Admitted(d, v.letter) == Some(true)
            then id in cases' && cases'[id].n == CaseFor(cases, v.letter.contract).n
                 && Mirrors(d, cases', id, calls + [CallOf(v)])
            else (id in cases <==> id in cases') && (id in cases ==> cases'[id] == cases[id])
  {
    if v.letter.contract.text == id && Admitted(d, v.letter) == Some(true) {
      RunOne(d, CaseFor(cases, v.letter.contract).n, calls, CallOf(v));
    }
  }

  /** So what holds of a solver over all sequences of calls holds for each contract, whatever else Trent is asked. */
  lemma {:induction false} ServiceMirrors(d: Desk, deliveries: seq<Delivery>, id: string)
    ensures Mirrors(d, Run(d, deliveries).0, id, CallsAbout(d, deliveries, id))
    decreases |deliveries|
  {
    if deliveries != [] {
      var last := |deliveries| - 1;
      ServiceMirrors(d, deliveries[..last], id);
      HandleMirrors(d, Run(d, deliveries[..last]).0, deliveries[last], id, CallsAbout(d, deliveries[..last], id));
    }
  }

  lemma HandleSize(d: Desk, cases: Cases, v: Delivery, id: string)
    requires id in cases
    ensures id in Handle(d, cases, v).0 && Handle(d, cases, v).0[id].n == cases[id].n
  {
  }

  /** The number of parties is that of the first letter let in about the contract, whatever later letters say. */
  lemma {:induction false} SizeStays(d: Desk, deliveries: seq<Delivery>, k: nat, id: string, n: nat)
    requires k <= |deliveries| && id in Run(d, deliveries[..k]).0 && Run(d, deliveries[..k]).0[id].n == n
    ensures id in Run(d, deliveries).0 && Run(d, deliveries).0[id].n == n
    decreases |deliveries|
  {
    if k == |deliveries| {
      assert deliveries[..k] == deliveries;
    } else {
      var before := deliveries[..|deliveries| - 1];
      assert before[..k] == deliveries[..k];
      SizeStays(d, before, k, id, n);
      HandleSize(d, Run(d, before).0, deliveries[|deliveries| - 1], id);
    }
  }

  /** What comes of a letter after others: what the solver of its contract answers, sealed for its own parties. */
  lemma OutcomeExactly(d: Desk, deliveries: seq<Delivery>, v: Delivery)
    requires Admitted(d, v.letter) == Some(true)
    ensures var (cases, c) := (Run(d, deliveries).0, v.letter.contract);
            var calls, n := CallsAbout(d, deliveries, c.text), if c.text in cases then cases[c.text].n else |c.parties|;
            Handle(d, cases, v).1
            == Send(d, v, TrentSolver.Resolve(d.keys, n, TrentSolver.Run(d.keys, n, calls).0, CallOf(v)).1)
  {
    ServiceMirrors(d, deliveries, v.letter.contract.text);
  }

  // ----- the seals -----

  /** The last of the first k parties with this public number. */
  ghost predicate LastWith(parties: seq<Key>, k: nat, j: nat, y: int)
    requires k <= |parties|
  {
    j < k && parties[j].y == y && forall l :: j < l < k ==> parties[l].y != y
  }

  /** The seal stored for this number is that of the last party with it. */
  ghost predicate SealOfLast(parties: seq<Key>, seal: (nat, Key) -> Option<Signature>, k: nat, y: int, s: Signature)
    requires k <= |parties|
  {
    exists j: nat :: LastWith(parties, k, j, y) && seal(j, parties[j]) == Some(s)
  }

  lemma LastStays(parties: seq<Key>, seal: (nat, Key) -> Option<Signature>, k: nat, y: int, s: Signature)
    requires 0 < k <= |parties| && y != parties[k - 1].y && SealOfLast(parties, seal, k - 1, y, s)
    ensures SealOfLast(parties, seal, k, y, s)
  {
    var j: nat :| LastWith(parties, k - 1, j, y) && seal(j, parties[j]) == Some(s);
    assert LastWith(parties, k, j, y);
  }

  /**
   * There is one seal for each public number among the parties and for no other; parties that share one get the seal
   * made for the last of them.
   */
  lemma {:induction false} CollectExactly(parties: seq<Key>, seal: (nat, Key) -> Option<Signature>, k: nat)
    requires k <= |parties|
    ensures var seals := Collect(parties, seal, k);
            && (seals.Some? <==> forall j: nat :: j < k ==> seal(j, parties[j]).Some?)
            && (seals.Some? ==>
                  && (forall j :: 0 <= j < k ==> parties[j].y in seals.value)
                  && forall y :: y in seals.value ==> SealOfLast(parties, seal, k, y, seals.value[y]))
  {
    if k > 0 {
      CollectExactly(parties, seal, k - 1);
      var seals := Collect(parties, seal, k);
      if seals.Some? {
        forall y | y in seals.value ensures SealOfLast(parties, seal, k, y, seals.value[y]) {
          if y == parties[k - 1].y {
            assert LastWith(parties, k, k - 1, y);
          } else {
            LastStays(parties, seal, k, y, seals.value[y]);
          }
        }
      }
    }
  }

  /** The public numbers of the parties. */
  function Numbers(parties: seq<Key>): set<int> {
    set k | k in parties :: k.y
  }

  /** Trent can sign the answer for every party. */
  ghost predicate Sealable(d: Desk, v: Delivery, answer: TrentSolver.Answer) {
    var parties, sealing := v.letter.contract.parties, Sealing(d, d.told(answer), v.coins);
    forall j: nat :: j < |parties| ==> sealing(j, parties[j]).Some?
  }

  /**
   * An answer goes out exactly if there is one and every party can be sealed for, with a seal for each public number
   * of theirs; only a notice that the sender was dishonest goes out without seals, and always.
   */
  lemma SendExactly(d: Desk, v: Delivery, answer: Option<TrentSolver.Answer>)
    ensures var o, parties := Send(d, v, answer), v.letter.contract.parties;
            && (o.Answered? <==> answer.Some? && (answer.value.SenderDishonest? || Sealable(d, v, answer.value)))
            && (o.Answered? ==>
                  && o.id == v.letter.contract.text && o.answer == answer.value
                  && o.seals.Keys == if answer.value.SenderDishonest? then {} else Numbers(parties))
            && (!o.Answered? ==> o.Failed?)
  {
    if answer.Some? && !answer.value.SenderDishonest? {
      var parties, sealing := v.letter.contract.parties, Sealing(d, d.told(answer.value), v.coins);
      CollectExactly(parties, sealing, |parties|);
      var seals := Collect(parties, sealing, |parties|);
      if seals.Some? { KeysOfAll(parties, sealing, seals.value); }
    }
  }

  lemma KeysOfAll(parties: seq<Key>, seal: (nat, Key) -> Option<Signature>, seals: map<int, Signature>)
    requires forall j :: 0 <= j < |parties| ==> parties[j].y in seals
    requires forall y :: y in seals ==> SealOfLast(parties, seal, |parties|, y, seals[y])
    ensures seals.Keys == Numbers(parties)
  {
    forall y | y in seals ensures y in Numbers(parties) {
      var j: nat :| LastWith(parties, |parties|, j, y) && seal(j, parties[j]) == Some(seals[y]);
      assert parties[j] in parties;
    }
  }

  /** The solver takes two letters for the same party's exactly if they name the same sender. */
  lemma SendersDiffer(v: Delivery, v': Delivery)
    ensures CallOf(v).sender == CallOf(v').sender <==> v.letter.sender == v'.letter.sender
  {
    ToStringInjective(v.letter.sender, v'.letter.sender);
  }
}
